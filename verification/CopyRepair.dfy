// decode and repair_from_copies of dbs/container/rs.py.
//
// The decoder itself is reedsolo's and is not part of this model: it is a function argument
// that meets DecoderContract.  IdealDecoderMeetsContract shows that such a decoder exists.
module CopyRepair {
  import opened Wrappers
  import opened Sets
  import opened Bytes
  import opened ReedSolomon
  import opened Encoder

  // Decodes one codeword, given the positions known to be wrong; None when it gives up.
  type Decoder = (seq<Byte>, set<nat>) -> Option<seq<Byte>>

  // The positions in which a received word differs from the word that was sent.
  function Changed(sent: seq<Byte>, got: seq<Byte>): set<nat>
    requires |sent| == |got|
  {
    set i: nat | i < |sent| && sent[i] != got[i]
  }

  // Errors count twice, erasures once, and together they fit the check symbols.
  ghost predicate WithinBudget(sent: seq<Byte>, got: seq<Byte>, erased: set<nat>, nsym: nat) {
    && |sent| == |got| && nsym < |sent| <= CODEWORD_SIZE
    && Vanishes(sent, nsym)
    && 2 * |Changed(sent, got) - erased| + |erased| <= nsym
  }

  ghost predicate DecoderContract(decoder: Decoder, nsym: nat) {
    && (forall sent, got, erased :: WithinBudget(sent, got, erased, nsym) ==>
          decoder(got, erased) == Some(sent[..|sent| - nsym]))
    && (forall got, erased :: decoder(got, erased).Some? ==> |decoder(got, erased).value| + nsym == |got|)
  }

  // ----- such a decoder exists

  function Shifted(s: set<nat>): set<nat> {
    set i | i in s :: i + 1
  }

  lemma {:induction false} ShiftedSize(s: set<nat>)
    ensures |Shifted(s)| == |s|
    decreases |s|
  {
    if s != {} {
      var x :| x in s;
      var rest := s - {x};
      ShiftedSize(rest);
      forall y ensures y in Shifted(s) <==> y in Shifted(rest) + {x + 1} {
        if y in Shifted(s) && y != x + 1 {
          var i :| i in s && i + 1 == y;
          assert i in rest;
        }
      }
      assert Shifted(s) == Shifted(rest) + {x + 1};
    }
  }

  lemma ChangedHead(v: seq<Byte>, w: seq<Byte>)
    requires |v| == |w| > 0
    ensures Changed(v, w) == (if v[0] == w[0] then {} else {0}) + Shifted(Changed(v[1..], w[1..]))
  {
    var tail := Changed(v[1..], w[1..]);
    forall i: nat | 0 < i < |v| ensures i in Changed(v, w) <==> i in Shifted(tail) {
      assert v[i] == v[1..][i - 1] && w[i] == w[1..][i - 1];
      assert i - 1 in tail ==> (i - 1) + 1 in Shifted(tail);
    }
  }

  lemma {:induction false} DistanceIsChanged(v: seq<Byte>, w: seq<Byte>)
    requires |v| == |w|
    ensures Distance(v, w) == |Changed(v, w)|
  {
    if |v| > 0 {
      ChangedHead(v, w);
      hide Changed;
      DistanceIsChanged(v[1..], w[1..]);
      ShiftedSize(Changed(v[1..], w[1..]));
    } else {
      assert Changed(v, w) == {};
    }
  }

  // Two words within the budget of one received word are the same word.
  lemma BudgetIsUnambiguous(one: seq<Byte>, other: seq<Byte>, got: seq<Byte>, erased: set<nat>, nsym: nat)
    requires WithinBudget(one, got, erased, nsym) && WithinBudget(other, got, erased, nsym)
    ensures one == other
  {
    hide Vanishes, Distance;
    var near := (Changed(one, got) - erased) + (Changed(other, got) - erased) + erased;
    assert Changed(one, other) <= near;
    SubsetSize(Changed(one, other), near);
    DistanceIsChanged(one, other);
    DistanceIsWeight(one, other);
    if one != other {
      MinimumDistance(one, other, nsym);
    }
  }

  ghost function IdealDecoder(nsym: nat): Decoder {
    (got: seq<Byte>, erased: set<nat>) =>
      if exists sent :: WithinBudget(sent, got, erased, nsym) then
        var sent :| WithinBudget(sent, got, erased, nsym);
        Some(sent[..|sent| - nsym])
      else None
  }

  lemma IdealDecoderMeetsContract(nsym: nat)
    ensures DecoderContract(IdealDecoder(nsym), nsym)
  {
    forall sent, got, erased | WithinBudget(sent, got, erased, nsym)
      ensures IdealDecoder(nsym)(got, erased) == Some(sent[..|sent| - nsym])
    {
      forall other | WithinBudget(other, got, erased, nsym) ensures other == sent {
        BudgetIsUnambiguous(other, sent, got, erased, nsym);
      }
    }
  }

  // ----- one codeword of several copies

  function Message(word: seq<Byte>, nsym: nat): seq<Byte>
    requires nsym <= |word|
  {
    word[..|word| - nsym]
  }

  datatype Piece = Piece(source: nat, data: seq<Byte>, decoded: bool)

  // The first codeword the decoder accepts without erasures.
  function FirstDecoded(words: seq<seq<Byte>>, erased: set<nat>, decoder: Decoder, first: nat): Option<Piece>
    requires first <= |words|
    decreases |words| - first
  {
    if first == |words| then None
    else match decoder(words[first], erased)
      case Some(data) => Some(Piece(first, data, true))
      case None => FirstDecoded(words, erased, decoder, first + 1)
  }

  // Plain decoding of each copy, then decoding with the disagreements of two copies erased.
  function DecodedPiece(words: seq<seq<Byte>>, nsym: nat, decoder: Decoder): Option<Piece> {
    var plain := FirstDecoded(words, {}, decoder, 0);
    if plain.Some? then plain
    else if |words| == 2 && |words[0]| == |words[1]| && 0 < |Changed(words[0], words[1])| <= nsym then
      FirstDecoded(words, Changed(words[0], words[1]), decoder, 0)
    else None
  }

  // _decode_any
  method DecodeAny(words: seq<seq<Byte>>, nsym: nat, decoder: Decoder) returns (piece: Option<Piece>)
    ensures piece == DecodedPiece(words, nsym, decoder)
  {
    for source := 0 to |words|
      invariant FirstDecoded(words, {}, decoder, 0) == FirstDecoded(words, {}, decoder, source)
    {
      var candidate := decoder(words[source], {});
      if candidate.Some? {
        return Some(Piece(source, candidate.value, true));
      }
    }
    if |words| == 2 && |words[0]| == |words[1]| {
      var differing := Changed(words[0], words[1]);
      if 0 < |differing| <= nsym {
        for source := 0 to |words|
          invariant FirstDecoded(words, differing, decoder, 0) == FirstDecoded(words, differing, decoder, source)
        {
          var candidate := decoder(words[source], differing);
          if candidate.Some? {
            return Some(Piece(source, candidate.value, true));
          }
        }
      }
    }
    piece := None;
  }

  // The first copy whose codeword is a word of the code.
  ghost function FirstConsistent(words: seq<seq<Byte>>, nsym: nat, first: nat): Option<Piece>
    requires first <= |words| && forall n :: 0 <= n < |words| ==> nsym <= |words[n]|
    decreases |words| - first
  {
    if first == |words| then None
    else if Vanishes(words[first], nsym) then Some(Piece(first, Message(words[first], nsym), false))
    else FirstConsistent(words, nsym, first + 1)
  }

  ghost function PieceOf(words: seq<seq<Byte>>, nsym: nat, decoder: Decoder): Option<Piece>
    requires forall n :: 0 <= n < |words| ==> nsym <= |words[n]|
  {
    var consistent := FirstConsistent(words, nsym, 0);
    if consistent.Some? then consistent else DecodedPiece(words, nsym, decoder)
  }

  lemma {:induction false} FirstConsistentMeans(words: seq<seq<Byte>>, nsym: nat, first: nat)
    requires first <= |words| && forall n :: 0 <= n < |words| ==> nsym <= |words[n]|
    ensures var piece := FirstConsistent(words, nsym, first);
            if piece.Some? then
              && first <= piece.value.source < |words|
              && Vanishes(words[piece.value.source], nsym)
              && piece.value.data == Message(words[piece.value.source], nsym) && !piece.value.decoded
              && forall n :: first <= n < piece.value.source ==> !Vanishes(words[n], nsym)
            else forall n :: first <= n < |words| ==> !Vanishes(words[n], nsym)
    decreases |words| - first
  {
    hide Vanishes;
    if first < |words| {
      FirstConsistentMeans(words, nsym, first + 1);
    }
  }

  lemma {:induction false} FirstDecodedMeans(words: seq<seq<Byte>>, erased: set<nat>, decoder: Decoder, first: nat)
    requires first <= |words|
    ensures var piece := FirstDecoded(words, erased, decoder, first);
            if piece.Some? then
              && first <= piece.value.source < |words|
              && decoder(words[piece.value.source], erased) == Some(piece.value.data) && piece.value.decoded
              && forall n :: first <= n < piece.value.source ==> decoder(words[n], erased).None?
            else forall n :: first <= n < |words| ==> decoder(words[n], erased).None?
    decreases |words| - first
  {
    if first < |words| {
      FirstDecodedMeans(words, erased, decoder, first + 1);
    }
  }

  // Every repaired piece has the length of the message it replaces.
  lemma PieceLengths(words: seq<seq<Byte>>, nsym: nat, decoder: Decoder, length: nat)
    requires DecoderContract(decoder, nsym)
    requires forall n :: 0 <= n < |words| ==> |words[n]| == length && nsym <= length
    ensures var piece := PieceOf(words, nsym, decoder);
            piece.Some? ==> piece.value.source < |words| && |piece.value.data| == length - nsym
  {
    hide Vanishes;
    FirstConsistentMeans(words, nsym, 0);
    FirstDecodedMeans(words, {}, decoder, 0);
    if |words| == 2 {
      FirstDecodedMeans(words, Changed(words[0], words[1]), decoder, 0);
    }
  }

  // ----- when two copies of a codeword can be repaired

  // The first copy that is a word of the code is the word that was sent or, if neither copy is a word
  // of the code, what is decoded is.
  ghost predicate Repairable(sent: seq<Byte>, first: seq<Byte>, second: seq<Byte>, nsym: nat, decoder: Decoder)
    requires |sent| == |first| == |second|
  {
    if Vanishes(first, nsym) then first == sent
    else if Vanishes(second, nsym) then second == sent
    else
      || |Changed(sent, first)| <= nsym / 2
      || (decoder(first, {}).None? && |Changed(sent, second)| <= nsym / 2)
      || (decoder(first, {}).None? && decoder(second, {}).None? && ErasuresSuffice(sent, first, second, nsym))
  }

  // With the places where the copies disagree erased, what both have wrong alike still fits.
  ghost predicate ErasuresSuffice(sent: seq<Byte>, first: seq<Byte>, second: seq<Byte>, nsym: nat)
    requires |sent| == |first| == |second|
  {
    var disagreements := Changed(first, second);
    2 * |Changed(sent, first) - disagreements| + |disagreements| <= nsym
  }

  // A word of the code with at most nsym changes is the word that was sent.
  lemma CloseCodewordIsSent(sent: seq<Byte>, got: seq<Byte>, nsym: nat)
    requires |sent| == |got| <= CODEWORD_SIZE && Vanishes(sent, nsym) && Vanishes(got, nsym)
    requires |Changed(sent, got)| <= nsym
    ensures got == sent
  {
    hide Vanishes;
    DistanceIsChanged(sent, got);
    if got != sent {
      MinimumDistance(sent, got, nsym);
    }
  }

  lemma UnchangedIsSent(sent: seq<Byte>, got: seq<Byte>)
    requires |sent| == |got| && Changed(sent, got) == {}
    ensures got == sent
  {
    forall i: nat | i < |sent| ensures sent[i] == got[i] {
      assert i !in Changed(sent, got);
    }
  }

  // What the copies have wrong alike is the same for both, and neither has more than nsym changes.
  lemma WrongAlike(sent: seq<Byte>, first: seq<Byte>, second: seq<Byte>, nsym: nat)
    requires |sent| == |first| == |second| && ErasuresSuffice(sent, first, second, nsym)
    ensures Changed(sent, first) - Changed(first, second) == Changed(sent, second) - Changed(first, second)
    ensures |Changed(sent, first)| <= nsym && |Changed(sent, second)| <= nsym
  {
    var (a, b, d) := (Changed(sent, first), Changed(sent, second), Changed(first, second));
    forall i ensures i in a - d <==> i in b - d {
    }
    hide Changed;
    SubsetSize(a, (a - d) + d);
    SubsetSize(b, (a - d) + d);
  }

  // If the changes of the copies are disjoint, the copies disagree exactly where one was changed.
  lemma DisagreementsAreChanges(sent: seq<Byte>, first: seq<Byte>, second: seq<Byte>)
    requires |sent| == |first| == |second| && Changed(sent, first) !! Changed(sent, second)
    ensures Changed(first, second) == Changed(sent, first) + Changed(sent, second)
  {
    forall i: nat ensures i in Changed(first, second) <==> i in Changed(sent, first) + Changed(sent, second) {
      if i < |sent| {
        assert !(i in Changed(sent, first) && i in Changed(sent, second));
      }
    }
  }

  lemma RepairOfTwo(sent: seq<Byte>, first: seq<Byte>, second: seq<Byte>, nsym: nat, decoder: Decoder)
    requires DecoderContract(decoder, nsym)
    requires |sent| == |first| == |second| && nsym < |sent| <= CODEWORD_SIZE && Vanishes(sent, nsym)
    requires Repairable(sent, first, second, nsym, decoder)
    ensures var piece := PieceOf([first, second], nsym, decoder);
            piece.Some? && piece.value.data == Message(sent, nsym)
  {
    ConsistentOfTwo(first, second, nsym);
    hide Vanishes, DecoderContract, Changed, FirstConsistent, DecodedPiece, ErasuresSuffice;
    if !Vanishes(first, nsym) && !Vanishes(second, nsym) {
      DecodesOfTwo(sent, first, second, nsym, decoder);
    }
  }

  lemma ConsistentOfTwo(first: seq<Byte>, second: seq<Byte>, nsym: nat)
    requires nsym <= |first| && nsym <= |second|
    ensures FirstConsistent([first, second], nsym, 0)
         == if Vanishes(first, nsym) then Some(Piece(0, Message(first, nsym), false))
            else if Vanishes(second, nsym) then Some(Piece(1, Message(second, nsym), false)) else None
  {
    hide Vanishes, Message;
    var words := [first, second];
    assert FirstConsistent(words, nsym, 2).None?;
    assert FirstConsistent(words, nsym, 1) == if Vanishes(second, nsym) then Some(Piece(1, Message(second, nsym), false)) else None;
  }

  // Counts of changes that make a pair of copies repairable, whatever the decoder does beyond its
  // contract.
  lemma FewChangesAreRepairable(sent: seq<Byte>, first: seq<Byte>, second: seq<Byte>, nsym: nat, decoder: Decoder)
    requires |sent| == |first| == |second| && nsym < |sent| <= CODEWORD_SIZE && Vanishes(sent, nsym)
    requires
      var (a, b) := (Changed(sent, first), Changed(sent, second));
      || a == {}
      || (|a| <= nsym && b == {})
      || (|a| <= nsym / 2 && |b| <= nsym)
    ensures Repairable(sent, first, second, nsym, decoder)
  {
    hide Vanishes, Changed, ErasuresSuffice;
    var (a, b) := (Changed(sent, first), Changed(sent, second));
    if a == {} { UnchangedIsSent(sent, first); }
    if b == {} { UnchangedIsSent(sent, second); }
    if Vanishes(first, nsym) { CloseCodewordIsSent(sent, first, nsym); }
    if Vanishes(second, nsym) && |b| <= nsym { CloseCodewordIsSent(sent, second, nsym); }
  }

  // With the disagreements erased neither copy can be another word of the code.
  lemma ErasuresAreRepairable(sent: seq<Byte>, first: seq<Byte>, second: seq<Byte>, nsym: nat, decoder: Decoder)
    requires |sent| == |first| == |second| && nsym < |sent| <= CODEWORD_SIZE && Vanishes(sent, nsym)
    requires decoder(first, {}).None? && decoder(second, {}).None? && ErasuresSuffice(sent, first, second, nsym)
    ensures Repairable(sent, first, second, nsym, decoder)
  {
    WrongAlike(sent, first, second, nsym);
    hide Vanishes, Changed, ErasuresSuffice;
    if Vanishes(first, nsym) { CloseCodewordIsSent(sent, first, nsym); }
    if Vanishes(second, nsym) { CloseCodewordIsSent(sent, second, nsym); }
  }

  // Neither copy is a word of the code.
  lemma DecodesOfTwo(sent: seq<Byte>, first: seq<Byte>, second: seq<Byte>, nsym: nat, decoder: Decoder)
    requires DecoderContract(decoder, nsym)
    requires |sent| == |first| == |second| && nsym < |sent| <= CODEWORD_SIZE && Vanishes(sent, nsym)
    requires !Vanishes(first, nsym) && !Vanishes(second, nsym) && Repairable(sent, first, second, nsym, decoder)
    ensures var piece := DecodedPiece([first, second], nsym, decoder);
            piece.Some? && piece.value.data == Message(sent, nsym)
  {
    hide Vanishes, DecoderContract, Changed, ErasuresSuffice, DecodedPiece;
    if |Changed(sent, first)| <= nsym / 2 {
      DecodesWithin(sent, first, {}, nsym, decoder);
      PlainOfTwo(first, second, nsym, decoder);
    } else if decoder(first, {}).None? && |Changed(sent, second)| <= nsym / 2 {
      DecodesWithin(sent, second, {}, nsym, decoder);
      PlainOfTwo(first, second, nsym, decoder);
    } else {
      RepairByErasure(sent, first, second, nsym, decoder);
    }
  }

  lemma PlainOfTwo(first: seq<Byte>, second: seq<Byte>, nsym: nat, decoder: Decoder)
    ensures decoder(first, {}).Some? ==> DecodedPiece([first, second], nsym, decoder) == Some(Piece(0, decoder(first, {}).value, true))
    ensures decoder(first, {}).None? && decoder(second, {}).Some? ==>
              DecodedPiece([first, second], nsym, decoder) == Some(Piece(1, decoder(second, {}).value, true))
  {
    hide Changed;
    var words := [first, second];
    assert FirstDecoded(words, {}, decoder, 2).None?;
    assert FirstDecoded(words, {}, decoder, 1)
        == if decoder(second, {}).Some? then Some(Piece(1, decoder(second, {}).value, true)) else None;
  }

  // Neither copy decodes alone, but with the disagreements of the copies erased they do.
  lemma RepairByErasure(sent: seq<Byte>, first: seq<Byte>, second: seq<Byte>, nsym: nat, decoder: Decoder)
    requires DecoderContract(decoder, nsym)
    requires |sent| == |first| == |second| && nsym < |sent| <= CODEWORD_SIZE && Vanishes(sent, nsym)
    requires decoder(first, {}).None? && decoder(second, {}).None?
    requires ErasuresSuffice(sent, first, second, nsym)
    ensures var piece := DecodedPiece([first, second], nsym, decoder);
            piece.Some? && piece.value.data == Message(sent, nsym)
  {
    WrongAlike(sent, first, second, nsym);
    hide Vanishes, DecoderContract, FirstDecoded, Changed;
    var words := [first, second];
    var d := Changed(first, second);
    DecodesWithin(sent, first, d, nsym, decoder);
    DecodesWithin(sent, second, d, nsym, decoder);
    FirstDecodedMeans(words, {}, decoder, 0);
    assert decoder(words[0], {}).None? && decoder(words[1], {}).None?;
    FirstDecodedMeans(words, d, decoder, 0);
    assert decoder(words[0], d).Some?;
  }

  // Changes that are disjoint and together at most nsym never need erasures: one of the copies
  // decodes alone.
  lemma DisjointDecodesAlone(sent: seq<Byte>, first: seq<Byte>, second: seq<Byte>, nsym: nat, decoder: Decoder)
    requires DecoderContract(decoder, nsym)
    requires |sent| == |first| == |second| && nsym < |sent| <= CODEWORD_SIZE && Vanishes(sent, nsym)
    requires Changed(sent, first) !! Changed(sent, second) && |Changed(sent, first)| + |Changed(sent, second)| <= nsym
    ensures ErasuresSuffice(sent, first, second, nsym)
    ensures decoder(first, {}) == Some(Message(sent, nsym)) || decoder(second, {}) == Some(Message(sent, nsym))
  {
    DisagreementsAreChanges(sent, first, second);
    hide Vanishes, DecoderContract, Changed;
    var (a, b) := (Changed(sent, first), Changed(sent, second));
    assert a - (a + b) == {} && |a + b| == |a| + |b|;
    if 2 * |a| <= nsym {
      DecodesWithin(sent, first, {}, nsym, decoder);
    } else {
      DecodesWithin(sent, second, {}, nsym, decoder);
    }
  }

  lemma DecodesWithin(sent: seq<Byte>, got: seq<Byte>, erased: set<nat>, nsym: nat, decoder: Decoder)
    requires DecoderContract(decoder, nsym)
    requires |sent| == |got| && nsym < |sent| <= CODEWORD_SIZE && Vanishes(sent, nsym)
    requires (erased == {} && 2 * |Changed(sent, got)| <= nsym)
          || 2 * |Changed(sent, got) - erased| + |erased| <= nsym
    ensures decoder(got, erased) == Some(Message(sent, nsym))
  {
    hide Vanishes;
    if erased == {} {
      assert Changed(sent, got) - erased == Changed(sent, got);
    }
    assert WithinBudget(sent, got, erased, nsym);
  }

  // ----- whole blocks

  // Where the index-th codeword of a block starts, or the end of the block.
  function WordStart(length: nat, index: nat): (start: nat)
    ensures start <= length
  {
    if index * CODEWORD_SIZE < length then index * CODEWORD_SIZE else length
  }

  function RestFrom(encoded: seq<Byte>, index: nat): seq<Byte> {
    encoded[WordStart(|encoded|, index)..]
  }

  lemma RestShape(encoded: seq<Byte>, nsym: nat, index: nat)
    requires ValidNsym(nsym) && IsWellFormed(|encoded|, nsym)
    ensures IsWellFormed(|RestFrom(encoded, index)|, nsym)
    ensures index < CodewordCount(|encoded|) ==> nsym < |CodewordAt(encoded, index)| <= CODEWORD_SIZE
    ensures index >= CodewordCount(|encoded|) ==> RestFrom(encoded, index) == []
  {}

  // The data from the index-th codeword on: its message, then the data after it.
  lemma StripRest(encoded: seq<Byte>, nsym: nat, index: nat)
    requires ValidNsym(nsym) && IsWellFormed(|encoded|, nsym) && index < CodewordCount(|encoded|)
    requires IsWellFormed(|RestFrom(encoded, index)|, nsym) && IsWellFormed(|RestFrom(encoded, index + 1)|, nsym)
    requires nsym < |CodewordAt(encoded, index)|
    ensures StripWords(RestFrom(encoded, index), nsym)
         == Message(CodewordAt(encoded, index), nsym) + StripWords(RestFrom(encoded, index + 1), nsym)
    ensures index + 1 < CodewordCount(|encoded|) ==> |CodewordAt(encoded, index)| == CODEWORD_SIZE
  {
    hide StripWords, IsWellFormed;
    var rest := RestFrom(encoded, index);
    var n := WordLength(|rest|);
    assert rest[..n] == CodewordAt(encoded, index);
    assert rest[n..] == RestFrom(encoded, index + 1);
    assert rest[..n - nsym] == Message(CodewordAt(encoded, index), nsym);
    StripStep(rest, nsym);
  }

  lemma StripStep(encoded: seq<Byte>, nsym: nat)
    requires ValidNsym(nsym) && IsWellFormed(|encoded|, nsym) && |encoded| > 0
    ensures var n := WordLength(|encoded|);
            && nsym < n && IsWellFormed(|encoded[n..]|, nsym)
            && StripWords(encoded, nsym) == encoded[..n - nsym] + StripWords(encoded[n..], nsym)
  {}

  // Where the message of the index-th codeword starts in the stripped data.
  function MessageStart(nsym: nat, index: nat): nat
    requires ValidNsym(nsym)
  {
    index * MessageLength(nsym)
  }

  lemma NextMessageStart(nsym: nat, index: nat)
    requires ValidNsym(nsym)
    ensures MessageStart(nsym, 0) == 0
    ensures MessageStart(nsym, index + 1) == MessageStart(nsym, index) + MessageLength(nsym)
  {}

  // The stripped data in front of the index-th codeword.
  lemma {:induction false} StripFront(encoded: seq<Byte>, nsym: nat, index: nat) returns (front: seq<Byte>)
    requires ValidNsym(nsym) && IsWellFormed(|encoded|, nsym) && index < CodewordCount(|encoded|)
    ensures IsWellFormed(|RestFrom(encoded, index)|, nsym)
    ensures StripWords(encoded, nsym) == front + StripWords(RestFrom(encoded, index), nsym)
    ensures |front| == MessageStart(nsym, index)
  {
    hide StripWords, IsWellFormed, CodewordAt, MessageStart;
    RestShape(encoded, nsym, index);
    if index == 0 {
      assert RestFrom(encoded, 0) == encoded;
      NextMessageStart(nsym, 0);
      front := [];
    } else {
      var before := StripFront(encoded, nsym, index - 1);
      RestShape(encoded, nsym, index - 1);
      StripRest(encoded, nsym, index - 1);
      front := before + Message(CodewordAt(encoded, index - 1), nsym);
      NextMessageStart(nsym, index - 1);
    }
  }

  // A slice of the stripped data at a multiple of the message length is one message.
  lemma StripSlice(encoded: seq<Byte>, nsym: nat, index: nat)
    requires ValidNsym(nsym) && IsWellFormed(|encoded|, nsym) && index < CodewordCount(|encoded|)
    ensures MessageStart(nsym, index) <= |StripWords(encoded, nsym)| && nsym <= |CodewordAt(encoded, index)|
    ensures SliceOf(StripWords(encoded, nsym), MessageStart(nsym, index), MessageLength(nsym))
         == Message(CodewordAt(encoded, index), nsym)
  {
    hide StripWords, IsWellFormed, CodewordAt, MessageStart;
    var front := StripFront(encoded, nsym, index);
    RestShape(encoded, nsym, index);
    RestShape(encoded, nsym, index + 1);
    StripRest(encoded, nsym, index);
    StripNothing(nsym);
    MiddleSlice(front, Message(CodewordAt(encoded, index), nsym), StripWords(RestFrom(encoded, index + 1), nsym), MessageLength(nsym));
  }

  lemma MiddleSlice(front: seq<Byte>, piece: seq<Byte>, rest: seq<Byte>, length: nat)
    requires |piece| == length || (rest == [] && |piece| <= length)
    ensures SliceOf(front + (piece + rest), |front|, length) == piece
  {}

  lemma StripNothing(nsym: nat)
    requires ValidNsym(nsym)
    ensures IsWellFormed(0, nsym) && StripWords([], nsym) == []
  {}

  // Python's slice of a sequence, which stops at its end.
  function SliceOf(data: seq<Byte>, start: nat, length: nat): seq<Byte>
    requires start <= |data|
  {
    data[start..if start + length < |data| then start + length else |data|]
  }

  // Python's slice assignment, which extends the buffer when the piece passes its end.
  function SliceAssign(buffer: seq<Byte>, start: nat, piece: seq<Byte>): seq<Byte> {
    var lo := if start < |buffer| then start else |buffer|;
    var hi := if start + |piece| < |buffer| then start + |piece| else |buffer|;
    buffer[..lo] + piece + buffer[hi..]
  }

  ghost predicate SameShape(copies: seq<seq<Byte>>, length: nat, nsym: nat) {
    && ValidNsym(nsym) && IsWellFormed(length, nsym) && |copies| > 0
    && forall n :: 0 <= n < |copies| ==> |copies[n]| == length
  }

  function WordsAt(copies: seq<seq<Byte>>, index: nat): (words: seq<seq<Byte>>)
    requires forall n :: 0 <= n < |copies| ==> index < CodewordCount(|copies[n]|)
    ensures |words| == |copies|
    ensures forall n :: 0 <= n < |words| ==> words[n] == CodewordAt(copies[n], index)
  {
    seq(|copies|, n requires 0 <= n < |copies| => CodewordAt(copies[n], index))
  }

  lemma WordsAreLong(copies: seq<seq<Byte>>, length: nat, nsym: nat, index: nat)
    requires SameShape(copies, length, nsym) && index < CodewordCount(length)
    ensures forall n :: 0 <= n < |copies| ==>
      nsym < |CodewordAt(copies[n], index)| == |CodewordAt(copies[0], index)| <= CODEWORD_SIZE
  {
    forall n | 0 <= n < |copies|
      ensures nsym < |CodewordAt(copies[n], index)| == |CodewordAt(copies[0], index)| <= CODEWORD_SIZE
    {
      RestShape(copies[n], nsym, index);
    }
  }

  ghost function PieceAt(copies: seq<seq<Byte>>, length: nat, nsym: nat, decoder: Decoder, index: nat): Option<Piece>
    requires SameShape(copies, length, nsym) && index < CodewordCount(length)
  {
    WordsAreLong(copies, length, nsym, index);
    PieceOf(WordsAt(copies, index), nsym, decoder)
  }

  datatype Repair = Repair(data: Option<seq<Byte>>, used: set<nat>, decoded: bool)

  // The first `count` codewords repaired one after the other, giving up at the first failure.
  ghost function RepairUpTo(copies: seq<seq<Byte>>, length: nat, nsym: nat, decoder: Decoder, count: nat): Repair
    requires SameShape(copies, length, nsym) && count <= CodewordCount(length)
  {
    if count == 0 then Repair(Some([]), {}, false)
    else
      var before := RepairUpTo(copies, length, nsym, decoder, count - 1);
      if before.data.None? then before
      else match PieceAt(copies, length, nsym, decoder, count - 1)
        case None => before.(data := None)
        case Some(piece) =>
          Repair(Some(before.data.value + piece.data), before.used + {piece.source}, before.decoded || piece.decoded)
  }

  lemma {:induction false} FailureStays(copies: seq<seq<Byte>>, length: nat, nsym: nat, decoder: Decoder, count: nat, total: nat)
    requires SameShape(copies, length, nsym) && count <= total <= CodewordCount(length)
    requires RepairUpTo(copies, length, nsym, decoder, count).data.None?
    ensures RepairUpTo(copies, length, nsym, decoder, total) == RepairUpTo(copies, length, nsym, decoder, count)
    decreases total - count
  {
    hide SameShape, PieceAt;
    if count < total {
      FailureStays(copies, length, nsym, decoder, count + 1, total);
    }
  }

  // The repaired prefix and the stripped rest together always have the stripped length.
  lemma {:induction false} RepairLength(copies: seq<seq<Byte>>, length: nat, nsym: nat, decoder: Decoder, count: nat)
    requires SameShape(copies, length, nsym) && count <= CodewordCount(length) && DecoderContract(decoder, nsym)
    requires RepairUpTo(copies, length, nsym, decoder, count).data.Some?
    ensures IsWellFormed(|RestFrom(copies[0], count)|, nsym)
    ensures |RepairUpTo(copies, length, nsym, decoder, count).data.value| + |StripWords(RestFrom(copies[0], count), nsym)|
         == |StripWords(copies[0], nsym)|
    ensures count < CodewordCount(length) ==>
      |RepairUpTo(copies, length, nsym, decoder, count).data.value| == MessageStart(nsym, count)
  {
    hide PieceOf, StripWords, DecoderContract, IsWellFormed, MessageStart;
    RestShape(copies[0], nsym, count);
    if count == 0 {
      assert RestFrom(copies[0], 0) == copies[0];
      NextMessageStart(nsym, 0);
    } else {
      var index := count - 1;
      RepairLength(copies, length, nsym, decoder, index);
      RestShape(copies[0], nsym, index);
      StripRest(copies[0], nsym, index);
      WordsAreLong(copies, length, nsym, index);
      PieceLengths(WordsAt(copies, index), nsym, decoder, |CodewordAt(copies[0], index)|);
      NextMessageStart(nsym, index);
    }
  }

  // Overwriting one piece turns the rest's first message into the repaired one.
  lemma AssignPiece(front: seq<Byte>, old_: seq<Byte>, rest: seq<Byte>, piece: seq<Byte>)
    requires |piece| == |old_|
    ensures SliceAssign(front + (old_ + rest), |front|, piece) == front + piece + rest
  {}

  ghost predicate Holds(repaired: seq<Byte>, repair: Repair, first: seq<Byte>, nsym: nat, index: nat)
    requires ValidNsym(nsym)
  {
    && repair.data.Some?
    && IsWellFormed(|RestFrom(first, index)|, nsym)
    && repaired == repair.data.value + StripWords(RestFrom(first, index), nsym)
  }

  lemma HoldsMeans(repaired: seq<Byte>, repair: Repair, first: seq<Byte>, nsym: nat, index: nat)
    requires ValidNsym(nsym) && Holds(repaired, repair, first, nsym, index)
    ensures repair.data.Some? && IsWellFormed(|RestFrom(first, index)|, nsym)
    ensures repaired == repair.data.value + StripWords(RestFrom(first, index), nsym)
  {
    hide IsWellFormed, StripWords, RestFrom;
  }

  lemma HoldsIntro(repair: Repair, data: seq<Byte>, first: seq<Byte>, nsym: nat, index: nat)
    requires ValidNsym(nsym) && IsWellFormed(|first|, nsym) && repair.data == Some(data)
    ensures IsWellFormed(|RestFrom(first, index)|, nsym)
    ensures Holds(data + StripWords(RestFrom(first, index), nsym), repair, first, nsym, index)
  {
    RestShape(first, nsym, index);
    hide IsWellFormed, StripWords, RestFrom;
  }

  // A found piece is appended to the repaired data.
  lemma PieceAppended(copies: seq<seq<Byte>>, length: nat, nsym: nat, decoder: Decoder, index: nat)
    requires SameShape(copies, length, nsym) && index < CodewordCount(length)
    requires RepairUpTo(copies, length, nsym, decoder, index).data.Some?
    requires PieceAt(copies, length, nsym, decoder, index).Some?
    ensures RepairUpTo(copies, length, nsym, decoder, index + 1).data
         == Some(RepairUpTo(copies, length, nsym, decoder, index).data.value + PieceAt(copies, length, nsym, decoder, index).value.data)
  {
    hide PieceAt, SameShape, CodewordCount;
  }

  // One turn of the loop: overwriting the buffer at index * k with the piece of that index.
  lemma RepairAdvance(copies: seq<seq<Byte>>, length: nat, nsym: nat, decoder: Decoder, index: nat, repaired: seq<Byte>)
    requires SameShape(copies, length, nsym) && index < CodewordCount(length) && DecoderContract(decoder, nsym)
    requires Holds(repaired, RepairUpTo(copies, length, nsym, decoder, index), copies[0], nsym, index)
    requires PieceAt(copies, length, nsym, decoder, index).Some?
    ensures var piece := PieceAt(copies, length, nsym, decoder, index).value;
            Holds(SliceAssign(repaired, MessageStart(nsym, index), piece.data),
                  RepairUpTo(copies, length, nsym, decoder, index + 1), copies[0], nsym, index + 1)
  {
    hide *;
    ShapeFacts(copies, length, nsym);
    var first := copies[0];
    RestShape(first, nsym, index);
    RestShape(first, nsym, index + 1);
    HoldsMeans(repaired, RepairUpTo(copies, length, nsym, decoder, index), first, nsym, index);
    StripRest(first, nsym, index);
    RepairLength(copies, length, nsym, decoder, index);
    PieceAtLength(copies, length, nsym, decoder, index);
    PieceAppended(copies, length, nsym, decoder, index);
    var data := RepairUpTo(copies, length, nsym, decoder, index).data.value;
    var piece := PieceAt(copies, length, nsym, decoder, index).value;
    AssignPiece(data, Message(CodewordAt(first, index), nsym), StripWords(RestFrom(first, index + 1), nsym), piece.data);
    HoldsIntro(RepairUpTo(copies, length, nsym, decoder, index + 1), data + piece.data, first, nsym, index + 1);
  }

  // Before the loop the buffer is the stripped first copy.
  lemma RepairBegins(copies: seq<seq<Byte>>, length: nat, nsym: nat, decoder: Decoder)
    requires SameShape(copies, length, nsym)
    ensures IsWellFormed(|copies[0]|, nsym)
    ensures Holds(StripWords(copies[0], nsym), RepairUpTo(copies, length, nsym, decoder, 0), copies[0], nsym, 0)
  {
    hide StripWords, PieceAt;
    assert RestFrom(copies[0], 0) == copies[0];
  }

  // After the loop nothing is left to strip.
  lemma RepairEnds(copies: seq<seq<Byte>>, length: nat, nsym: nat, decoder: Decoder, repaired: seq<Byte>)
    requires SameShape(copies, length, nsym)
    requires Holds(repaired, RepairUpTo(copies, length, nsym, decoder, CodewordCount(length)), copies[0], nsym, CodewordCount(length))
    ensures Some(repaired) == RepairUpTo(copies, length, nsym, decoder, CodewordCount(length)).data
  {
    RestShape(copies[0], nsym, CodewordCount(length));
    StripNothing(nsym);
    hide StripWords, RepairUpTo, IsWellFormed, RestFrom, CodewordCount;
    var data := RepairUpTo(copies, length, nsym, decoder, CodewordCount(length)).data.value;
    assert data == data + [];
  }

  function StripAll(copies: seq<seq<Byte>>, nsym: nat): (stripped: seq<seq<Byte>>)
    requires ValidNsym(nsym) && forall n :: 0 <= n < |copies| ==> IsWellFormed(|copies[n]|, nsym)
    ensures |stripped| == |copies|
    ensures forall n :: 0 <= n < |copies| ==> stripped[n] == StripWords(copies[n], nsym)
  {
    hide StripWords, IsWellFormed;
    seq(|copies|, n requires 0 <= n < |copies| && ValidNsym(nsym) && IsWellFormed(|copies[n]|, nsym) => StripWords(copies[n], nsym))
  }

  // The piece for one index: from the first consistent copy, else from the decoder.
  method ChoosePiece(copies: seq<seq<Byte>>, consistent: seq<seq<bool>>, stripped: seq<seq<Byte>>,
                     length: nat, nsym: nat, decoder: Decoder, index: nat) returns (piece: Option<Piece>)
    requires SameShape(copies, length, nsym) && index < CodewordCount(length)
    requires |consistent| == |copies| == |stripped|
    requires forall m :: 0 <= m < |copies| ==> |consistent[m]| == CodewordCount(length) && IsMaskOf(consistent[m], copies[m], nsym)
    requires forall m :: 0 <= m < |copies| ==> stripped[m] == StripWords(copies[m], nsym)
    ensures piece == PieceAt(copies, length, nsym, decoder, index)
  {
    hide CodewordAt, StripWords, IsWellFormed, PieceAt, FirstConsistent, DecodedPiece, IsMaskOf, SliceOf, WordsAt, FirstTrue;
    var source := FirstTrue(consistent, index);
    SourceIsConsistent(consistent, copies, length, nsym, index);
    PieceChoice(copies, length, nsym, decoder, index);
    if source < |copies| {
      StripSlice(copies[source], nsym, index);
      piece := Some(Piece(source, SliceOf(stripped[source], MessageStart(nsym, index), MessageLength(nsym)), false));
    } else {
      piece := DecodeAny(WordsAt(copies, index), nsym, decoder);
    }
  }

  // The masks and the stripped data that the loop reads.
  ghost predicate Prepared(copies: seq<seq<Byte>>, consistent: seq<seq<bool>>, stripped: seq<seq<Byte>>, length: nat, nsym: nat) {
    && SameShape(copies, length, nsym)
    && |consistent| == |copies| == |stripped|
    && (forall m :: 0 <= m < |copies| ==> |consistent[m]| == CodewordCount(length) && IsMaskOf(consistent[m], copies[m], nsym))
    && (forall m :: 0 <= m < |copies| ==> IsWellFormed(|copies[m]|, nsym) && stripped[m] == StripWords(copies[m], nsym))
  }

  method Prepare(copies: seq<seq<Byte>>, table: seq<seq<seq<Byte>>>, length: nat, nsym: nat)
    returns (consistent: seq<seq<bool>>, stripped: seq<seq<Byte>>)
    requires IsParityTable(table, nsym) && SameShape(copies, length, nsym)
    ensures Prepared(copies, consistent, stripped, length, nsym)
  {
    hide IsParityTable, CodewordCount, IsWellFormed, IsMaskOf, StripWords;
    consistent := Masks(copies, table, length, nsym);
    MaskWidths(consistent, copies, length, nsym);
    stripped := StripAll(copies, nsym);
  }

  // Where the loop stands: the buffer, and what it has recorded.
  ghost predicate Progress(copies: seq<seq<Byte>>, length: nat, nsym: nat, decoder: Decoder, index: nat,
                           repaired: seq<Byte>, used: set<nat>, decoded: bool) {
    && SameShape(copies, length, nsym) && index <= CodewordCount(length)
    && var repair := RepairUpTo(copies, length, nsym, decoder, index);
    && Holds(repaired, repair, copies[0], nsym, index) && used == repair.used && decoded == repair.decoded
  }

  lemma ProgressBegins(copies: seq<seq<Byte>>, length: nat, nsym: nat, decoder: Decoder)
    requires SameShape(copies, length, nsym)
    ensures IsWellFormed(|copies[0]|, nsym)
    ensures Progress(copies, length, nsym, decoder, 0, StripWords(copies[0], nsym), {}, false)
  {
    hide Holds, IsWellFormed, RepairUpTo, StripWords;
    RepairBegins(copies, length, nsym, decoder);
    RepairStep(copies, length, nsym, decoder, 0);
  }

  lemma ProgressTurn(copies: seq<seq<Byte>>, length: nat, nsym: nat, decoder: Decoder, index: nat,
                     repaired: seq<Byte>, used: set<nat>, decoded: bool)
    requires Progress(copies, length, nsym, decoder, index, repaired, used, decoded)
    requires index < CodewordCount(length) && DecoderContract(decoder, nsym)
    ensures SameShape(copies, length, nsym)
    ensures PieceAt(copies, length, nsym, decoder, index).None? ==>
      RepairUpTo(copies, length, nsym, decoder, CodewordCount(length)) == Repair(None, used, decoded)
    ensures PieceAt(copies, length, nsym, decoder, index).Some? ==>
      var piece := PieceAt(copies, length, nsym, decoder, index).value;
      Progress(copies, length, nsym, decoder, index + 1, SliceAssign(repaired, MessageStart(nsym, index), piece.data),
               used + {piece.source}, decoded || piece.decoded)
  {
    assert |copies| > 0;
    hide Holds, SameShape, RepairUpTo, PieceAt, DecoderContract, CodewordCount, SliceAssign, MessageStart;
    ShapeFacts(copies, length, nsym);
    HoldsMeans(repaired, RepairUpTo(copies, length, nsym, decoder, index), copies[0], nsym, index);
    RepairStep(copies, length, nsym, decoder, index);
    if PieceAt(copies, length, nsym, decoder, index).None? {
      FailureStays(copies, length, nsym, decoder, index + 1, CodewordCount(length));
    } else {
      RepairAdvance(copies, length, nsym, decoder, index, repaired);
    }
  }

  lemma ProgressEnds(copies: seq<seq<Byte>>, length: nat, nsym: nat, decoder: Decoder, repaired: seq<Byte>, used: set<nat>, decoded: bool)
    requires Progress(copies, length, nsym, decoder, CodewordCount(length), repaired, used, decoded)
    ensures RepairUpTo(copies, length, nsym, decoder, CodewordCount(length)) == Repair(Some(repaired), used, decoded)
  {
    hide Holds, SameShape, RepairUpTo, CodewordCount;
    ShapeFacts(copies, length, nsym);
    RepairEnds(copies, length, nsym, decoder, repaired);
  }

  method RepairCodewords(copies: seq<seq<Byte>>, consistent: seq<seq<bool>>, stripped: seq<seq<Byte>>,
                         length: nat, nsym: nat, decoder: Decoder) returns (result: Repair)
    requires Prepared(copies, consistent, stripped, length, nsym) && DecoderContract(decoder, nsym)
    ensures SameShape(copies, length, nsym)
    ensures result == RepairUpTo(copies, length, nsym, decoder, CodewordCount(length))
  {
    hide IsMaskOf, StripWords, DecoderContract, IsWellFormed, RepairUpTo, PieceAt, Progress,
         MessageStart, CodewordCount, SliceAssign, Message, MessageLength;
    ProgressBegins(copies, length, nsym, decoder);
    var repaired, used, decoded := stripped[0], {}, false;
    for index := 0 to CodewordCount(length)
      invariant Progress(copies, length, nsym, decoder, index, repaired, used, decoded)
    {
      ProgressTurn(copies, length, nsym, decoder, index, repaired, used, decoded);
      var found := ChoosePiece(copies, consistent, stripped, length, nsym, decoder, index);
      if found.None? {
        return Repair(None, used, decoded);
      }
      var piece := found.value;
      repaired := SliceAssign(repaired, MessageStart(nsym, index), piece.data);
      used := used + {piece.source};
      decoded := decoded || piece.decoded;
    }
    ProgressEnds(copies, length, nsym, decoder, repaired, used, decoded);
    result := Repair(Some(repaired), used, decoded);
  }

  // repair_from_copies
  method RepairFromCopies(copies: seq<seq<Byte>>, table: seq<seq<seq<Byte>>>, nsym: nat, decoder: Decoder)
    returns (result: Repair)
    requires IsParityTable(table, nsym) && DecoderContract(decoder, nsym)
    ensures copies == [] || !SameShape(copies, |copies[0]|, nsym) ==> result == Repair(None, {}, false)
    ensures copies != [] && SameShape(copies, |copies[0]|, nsym) ==>
      result == RepairUpTo(copies, |copies[0]|, nsym, decoder, CodewordCount(|copies[0]|))
  {
    hide IsParityTable, DecoderContract, IsWellFormed, RepairUpTo, CodewordCount, Prepared;
    ParityTableNsym(table, nsym);
    if copies == [] {
      return Repair(None, {}, false);
    }
    var length := |copies[0]|;
    if (exists n :: 0 <= n < |copies| && |copies[n]| != length) || !IsWellFormed(length, nsym) {
      return Repair(None, {}, false);
    }
    var consistent, stripped := Prepare(copies, table, length, nsym);
    result := RepairCodewords(copies, consistent, stripped, length, nsym, decoder);
  }

  // The consistency mask of every copy.
  method Masks(copies: seq<seq<Byte>>, table: seq<seq<seq<Byte>>>, length: nat, nsym: nat) returns (masks: seq<seq<bool>>)
    requires IsParityTable(table, nsym) && SameShape(copies, length, nsym)
    ensures |masks| == |copies|
    ensures forall m :: 0 <= m < |copies| ==> IsMaskOf(masks[m], copies[m], nsym)
  {
    hide IsParityTable, Vanishes, Codewords, IsWellFormed;
    masks := [];
    for n := 0 to |copies|
      invariant |masks| == n
      invariant forall m :: 0 <= m < n ==> IsMaskOf(masks[m], copies[m], nsym)
    {
      var mask := ConsistentMask(copies[n], table, nsym);
      masks := masks + [mask];
    }
  }

  lemma MaskWidths(masks: seq<seq<bool>>, copies: seq<seq<Byte>>, length: nat, nsym: nat)
    requires SameShape(copies, length, nsym) && |masks| == |copies|
    requires forall m :: 0 <= m < |copies| ==> IsMaskOf(masks[m], copies[m], nsym)
    ensures forall m :: 0 <= m < |masks| ==> |masks[m]| == CodewordCount(length)
  {
    hide Vanishes;
  }

  lemma RepairStep(copies: seq<seq<Byte>>, length: nat, nsym: nat, decoder: Decoder, index: nat)
    requires SameShape(copies, length, nsym) && index <= CodewordCount(length)
    ensures RepairUpTo(copies, length, nsym, decoder, 0) == Repair(Some([]), {}, false)
    ensures index < CodewordCount(length) && RepairUpTo(copies, length, nsym, decoder, index).data.Some? ==>
      (var before := RepairUpTo(copies, length, nsym, decoder, index);
       var after := RepairUpTo(copies, length, nsym, decoder, index + 1);
       match PieceAt(copies, length, nsym, decoder, index)
       case None => after == before.(data := None)
       case Some(piece) =>
         && after.used == before.used + {piece.source}
         && (after.decoded <==> before.decoded || piece.decoded))
  {
    hide PieceAt, SameShape;
  }

  ghost predicate IsMaskOf(mask: seq<bool>, copy: seq<Byte>, nsym: nat) {
    && |mask| == |Codewords(copy)|
    && forall i :: 0 <= i < |mask| ==> (mask[i] <==> Vanishes(Codewords(copy)[i], nsym))
  }

  // The first copy whose mask holds at an index, or the number of copies.
  function FirstTrue(masks: seq<seq<bool>>, index: nat): (source: nat)
    requires forall n :: 0 <= n < |masks| ==> index < |masks[n]|
    ensures source <= |masks|
  {
    if |masks| == 0 then 0
    else if masks[0][index] then 0
    else 1 + FirstTrue(masks[1..], index)
  }

  lemma {:induction false} FirstTrueIsFirst(masks: seq<seq<bool>>, index: nat)
    requires forall n :: 0 <= n < |masks| ==> index < |masks[n]|
    ensures var source := FirstTrue(masks, index);
            && (source < |masks| ==> masks[source][index])
            && forall n :: 0 <= n < source ==> !masks[n][index]
  {
    if |masks| > 0 && !masks[0][index] {
      FirstTrueIsFirst(masks[1..], index);
      forall n | 0 < n < FirstTrue(masks, index) ensures !masks[n][index] {
        assert masks[n] == masks[1..][n - 1];
      }
    }
  }

  lemma {:induction false} ConsistentFrom(words: seq<seq<Byte>>, nsym: nat, first: nat, source: nat)
    requires first <= source <= |words| && forall n :: 0 <= n < |words| ==> nsym <= |words[n]|
    requires forall n :: first <= n < source ==> !Vanishes(words[n], nsym)
    requires source < |words| ==> Vanishes(words[source], nsym)
    ensures FirstConsistent(words, nsym, first)
         == if source < |words| then Some(Piece(source, Message(words[source], nsym), false)) else None
    decreases source - first
  {
    hide Vanishes;
    if first < source {
      ConsistentFrom(words, nsym, first + 1, source);
    }
  }

  lemma SourceIsConsistent(consistent: seq<seq<bool>>, copies: seq<seq<Byte>>, length: nat, nsym: nat, index: nat)
    requires SameShape(copies, length, nsym) && index < CodewordCount(length) && |consistent| == |copies|
    requires forall m :: 0 <= m < |copies| ==> |consistent[m]| == CodewordCount(length)
    requires forall m :: 0 <= m < |copies| ==> IsMaskOf(consistent[m], copies[m], nsym)
    ensures forall n :: 0 <= n < |copies| ==> nsym <= |CodewordAt(copies[n], index)|
    ensures FirstConsistent(WordsAt(copies, index), nsym, 0)
         == (var source := FirstTrue(consistent, index);
             if source < |copies| then Some(Piece(source, Message(CodewordAt(copies[source], index), nsym), false)) else None)
  {
    hide Vanishes, Codewords, CodewordAt, FirstConsistent;
    WordsAreLong(copies, length, nsym, index);
    FirstTrueIsFirst(consistent, index);
    var words := WordsAt(copies, index);
    forall n | 0 <= n < |copies| ensures consistent[n][index] <==> Vanishes(words[n], nsym) {
      CodewordAtIndex(copies[n], index);
    }
    ConsistentFrom(words, nsym, 0, FirstTrue(consistent, index));
  }

  lemma PieceChoice(copies: seq<seq<Byte>>, length: nat, nsym: nat, decoder: Decoder, index: nat)
    requires SameShape(copies, length, nsym) && index < CodewordCount(length)
    ensures forall n :: 0 <= n < |copies| ==> nsym <= |CodewordAt(copies[n], index)|
    ensures PieceAt(copies, length, nsym, decoder, index)
         == (var words := WordsAt(copies, index);
             if FirstConsistent(words, nsym, 0).Some? then FirstConsistent(words, nsym, 0) else DecodedPiece(words, nsym, decoder))
  {
    hide CodewordAt, FirstConsistent, DecodedPiece;
    WordsAreLong(copies, length, nsym, index);
  }

  lemma PieceAtLength(copies: seq<seq<Byte>>, length: nat, nsym: nat, decoder: Decoder, index: nat)
    requires SameShape(copies, length, nsym) && index < CodewordCount(length) && DecoderContract(decoder, nsym)
    requires nsym < |CodewordAt(copies[0], index)|
    ensures var piece := PieceAt(copies, length, nsym, decoder, index);
            piece.Some? ==> |piece.value.data| == |Message(CodewordAt(copies[0], index), nsym)|
  {
    hide CodewordAt, PieceOf, DecoderContract;
    WordsAreLong(copies, length, nsym, index);
    PieceLengths(WordsAt(copies, index), nsym, decoder, |CodewordAt(copies[0], index)|);
  }

  // ----- what the repair guarantees

  // Whenever a block comes back it has the length of a stripped copy.
  lemma RepairKeepsLength(copies: seq<seq<Byte>>, length: nat, nsym: nat, decoder: Decoder)
    requires SameShape(copies, length, nsym) && DecoderContract(decoder, nsym)
    ensures var repair := RepairUpTo(copies, length, nsym, decoder, CodewordCount(length));
            repair.data.Some? ==> |repair.data.value| == |StripWords(copies[0], nsym)|
  {
    hide RepairUpTo, StripWords, DecoderContract;
    if RepairUpTo(copies, length, nsym, decoder, CodewordCount(length)).data.Some? {
      RepairLength(copies, length, nsym, decoder, CodewordCount(length));
      RestShape(copies[0], nsym, CodewordCount(length));
      StripNothing(nsym);
    }
  }

  // If every piece is the message that was sent, the repair is the data that was sent.
  lemma {:induction false} PiecesMakeData(encoded: seq<Byte>, copies: seq<seq<Byte>>, nsym: nat, decoder: Decoder, count: nat)
    requires SameShape(copies, |encoded|, nsym) && count <= CodewordCount(|encoded|)
    requires forall i: nat :: i < count ==>
      && nsym <= |CodewordAt(encoded, i)|
      && PieceAt(copies, |encoded|, nsym, decoder, i).Some?
      && PieceAt(copies, |encoded|, nsym, decoder, i).value.data == Message(CodewordAt(encoded, i), nsym)
    ensures IsWellFormed(|RestFrom(encoded, count)|, nsym)
    ensures var repair := RepairUpTo(copies, |encoded|, nsym, decoder, count);
            repair.data.Some? && repair.data.value + StripWords(RestFrom(encoded, count), nsym) == StripWords(encoded, nsym)
  {
    hide CodewordAt, PieceAt, StripWords, IsWellFormed, SameShape;
    ShapeFacts(copies, |encoded|, nsym);
    RestShape(encoded, nsym, count);
    if count == 0 {
      assert RestFrom(encoded, 0) == encoded;
    } else {
      var index := count - 1;
      PiecesMakeData(encoded, copies, nsym, decoder, index);
      RestShape(encoded, nsym, index);
      StripRest(encoded, nsym, index);
    }
  }

  lemma ShapeFacts(copies: seq<seq<Byte>>, length: nat, nsym: nat)
    requires SameShape(copies, length, nsym)
    ensures ValidNsym(nsym) && IsWellFormed(length, nsym)
    ensures |copies| > 0 && |copies[0]| == length
  {
    hide IsWellFormed;
  }

  lemma PairShape(first: seq<Byte>, second: seq<Byte>, nsym: nat)
    requires ValidNsym(nsym) && |first| == |second| && IsWellFormed(|first|, nsym)
    ensures SameShape([first, second], |first|, nsym)
  {}

  lemma PiecesMakeAll(encoded: seq<Byte>, copies: seq<seq<Byte>>, nsym: nat, decoder: Decoder)
    requires SameShape(copies, |encoded|, nsym)
    requires forall i: nat :: i < CodewordCount(|encoded|) ==>
      && nsym <= |CodewordAt(encoded, i)|
      && PieceAt(copies, |encoded|, nsym, decoder, i).Some?
      && PieceAt(copies, |encoded|, nsym, decoder, i).value.data == Message(CodewordAt(encoded, i), nsym)
    ensures IsWellFormed(|encoded|, nsym)
    ensures RepairUpTo(copies, |encoded|, nsym, decoder, CodewordCount(|encoded|)).data == Some(StripWords(encoded, nsym))
  {
    ShapeFacts(copies, |encoded|, nsym);
    RestShape(encoded, nsym, CodewordCount(|encoded|));
    StripNothing(nsym);
    hide CodewordAt, PieceAt, RepairUpTo, StripWords, SameShape, IsWellFormed, RestFrom;
    hide CodewordCount;
    PiecesMakeData(encoded, copies, nsym, decoder, CodewordCount(|encoded|));
    var data := RepairUpTo(copies, |encoded|, nsym, decoder, CodewordCount(|encoded|)).data.value;
    assert data == data + [];
  }

  lemma PieceOfTwo(encoded: seq<Byte>, first: seq<Byte>, second: seq<Byte>, nsym: nat, decoder: Decoder, index: nat)
    requires SameShape([first, second], |encoded|, nsym) && index < CodewordCount(|encoded|) && DecoderContract(decoder, nsym)
    requires |first| == |second| == |encoded|
    requires Vanishes(CodewordAt(encoded, index), nsym)
    requires Repairable(CodewordAt(encoded, index), CodewordAt(first, index), CodewordAt(second, index), nsym, decoder)
    ensures nsym <= |CodewordAt(encoded, index)|
    ensures var piece := PieceAt([first, second], |encoded|, nsym, decoder, index);
            piece.Some? && piece.value.data == Message(CodewordAt(encoded, index), nsym)
  {
    var copies := [first, second];
    RestShape(encoded, nsym, index);
    WordsAreLong(copies, |encoded|, nsym, index);
    hide CodewordAt, Repairable, DecoderContract, Vanishes, PieceOf;
    RepairOfTwo(CodewordAt(encoded, index), CodewordAt(first, index), CodewordAt(second, index), nsym, decoder);
    assert WordsAt(copies, index) == [CodewordAt(first, index), CodewordAt(second, index)];
  }

  // Two damaged copies of an encoded block give the original data back whenever each
  // codeword index is repairable.
  lemma TwoCopyRepair(data: seq<Byte>, first: seq<Byte>, second: seq<Byte>, nsym: nat, decoder: Decoder)
    requires ValidNsym(nsym) && DecoderContract(decoder, nsym)
    requires |first| == |second| == |EncodeBlock(data, nsym)|
    requires forall i: nat :: i < CodewordCount(|first|) ==>
      Repairable(CodewordAt(EncodeBlock(data, nsym), i), CodewordAt(first, i), CodewordAt(second, i), nsym, decoder)
    ensures SameShape([first, second], |first|, nsym)
    ensures RepairUpTo([first, second], |first|, nsym, decoder, CodewordCount(|first|)).data == Some(data)
  {
    var encoded, copies := EncodeBlock(data, nsym), [first, second];
    EncodedBlockIsSound(data, nsym);
    PairShape(first, second, nsym);
    hide EncodeBlock, CodewordAt, Codewords, Repairable, DecoderContract, Vanishes, PieceAt, RepairUpTo, StripWords, IsWellFormed, SameShape;
    forall i: nat | i < CodewordCount(|encoded|)
      ensures nsym <= |CodewordAt(encoded, i)|
      ensures PieceAt(copies, |encoded|, nsym, decoder, i).Some?
      ensures PieceAt(copies, |encoded|, nsym, decoder, i).value.data == Message(CodewordAt(encoded, i), nsym)
    {
      CodewordAtIndex(encoded, i);
      PieceOfTwo(encoded, first, second, nsym, decoder, i);
    }
    PiecesMakeAll(encoded, copies, nsym, decoder);
  }

  // ----- what the repair reports

  // Something was decoded exactly when some codeword is a word of the code in no copy.
  ghost predicate NoCopyConsistent(copies: seq<seq<Byte>>, nsym: nat, index: nat)
    requires forall n :: 0 <= n < |copies| ==> index < CodewordCount(|copies[n]|)
  {
    forall n :: 0 <= n < |copies| ==> !Vanishes(CodewordAt(copies[n], index), nsym)
  }

  lemma PieceIsDecoded(copies: seq<seq<Byte>>, length: nat, nsym: nat, decoder: Decoder, index: nat)
    requires SameShape(copies, length, nsym) && index < CodewordCount(length) && PieceAt(copies, length, nsym, decoder, index).Some?
    ensures PieceAt(copies, length, nsym, decoder, index).value.decoded <==> NoCopyConsistent(copies, nsym, index)
  {
    hide CodewordAt, Vanishes, PieceAt, FirstConsistent, FirstDecoded, SameShape;
    var words := WordsAtMeans(copies, length, nsym, index);
    PieceChoice(copies, length, nsym, decoder, index);
    FirstConsistentMeans(words, nsym, 0);
    FirstDecodedMeans(words, {}, decoder, 0);
    if |words| == 2 && |words[0]| == |words[1]| {
      FirstDecodedMeans(words, Changed(words[0], words[1]), decoder, 0);
    }
  }

  lemma WordsAtMeans(copies: seq<seq<Byte>>, length: nat, nsym: nat, index: nat) returns (words: seq<seq<Byte>>)
    requires SameShape(copies, length, nsym) && index < CodewordCount(length)
    ensures forall n :: 0 <= n < |copies| ==> |copies[n]| == length
    ensures words == WordsAt(copies, index) && |words| == |copies|
    ensures forall n :: 0 <= n < |words| ==> words[n] == CodewordAt(copies[n], index) && nsym < |words[n]|
  {
    WordsAreLong(copies, length, nsym, index);
    words := WordsAt(copies, index);
  }

  // The copy a piece is taken from: the first that is a word of the code or, with none, the first that
  // decodes as it is or, with none, the first that decodes with the disagreements erased.
  ghost predicate TakenFrom(words: seq<seq<Byte>>, nsym: nat, decoder: Decoder, source: nat) {
    && source < |words|
    && (|| (Vanishes(words[source], nsym) && forall n :: 0 <= n < source ==> !Vanishes(words[n], nsym))
        || ((forall n :: 0 <= n < |words| ==> !Vanishes(words[n], nsym))
            && (|| (decoder(words[source], {}).Some? && forall n :: 0 <= n < source ==> decoder(words[n], {}).None?)
                || ((forall n :: 0 <= n < |words| ==> decoder(words[n], {}).None?)
                    && |words| == 2 && |words[0]| == |words[1]|
                    && var erased := Changed(words[0], words[1]);
                       && decoder(words[source], erased).Some? && forall n :: 0 <= n < source ==> decoder(words[n], erased).None?))))
  }

  lemma PieceIsTaken(copies: seq<seq<Byte>>, length: nat, nsym: nat, decoder: Decoder, index: nat)
    requires SameShape(copies, length, nsym) && index < CodewordCount(length) && PieceAt(copies, length, nsym, decoder, index).Some?
    ensures TakenFrom(WordsAt(copies, index), nsym, decoder, PieceAt(copies, length, nsym, decoder, index).value.source)
  {
    hide CodewordAt, Vanishes, PieceAt, FirstConsistent, FirstDecoded, SameShape, Changed;
    var words := WordsAtMeans(copies, length, nsym, index);
    PieceChoice(copies, length, nsym, decoder, index);
    FirstConsistentMeans(words, nsym, 0);
    FirstDecodedMeans(words, {}, decoder, 0);
    if |words| == 2 && |words[0]| == |words[1]| {
      FirstDecodedMeans(words, Changed(words[0], words[1]), decoder, 0);
    }
  }

  // The sources of a repair are the copies its pieces were taken from.
  lemma {:induction false} UsedMeans(copies: seq<seq<Byte>>, length: nat, nsym: nat, decoder: Decoder, count: nat, n: nat)
    requires SameShape(copies, length, nsym) && count <= CodewordCount(length)
    requires RepairUpTo(copies, length, nsym, decoder, count).data.Some?
    ensures n in RepairUpTo(copies, length, nsym, decoder, count).used <==>
              exists j: nat :: j < count && SourceAt(copies, length, nsym, decoder, j) == Some(n)
  {
    hide PieceAt;
    if count > 0 {
      UsedMeans(copies, length, nsym, decoder, count - 1, n);
      assert SourceAt(copies, length, nsym, decoder, count - 1) == Some(PieceAt(copies, length, nsym, decoder, count - 1).value.source);
    }
  }

  lemma UsedAreCopies(copies: seq<seq<Byte>>, length: nat, nsym: nat, decoder: Decoder, count: nat, n: nat)
    requires SameShape(copies, length, nsym) && count <= CodewordCount(length)
    requires RepairUpTo(copies, length, nsym, decoder, count).data.Some? && n in RepairUpTo(copies, length, nsym, decoder, count).used
    ensures n < |copies|
  {
    hide PieceAt, RepairUpTo, TakenFrom;
    UsedMeans(copies, length, nsym, decoder, count, n);
    var j: nat :| j < count && SourceAt(copies, length, nsym, decoder, j) == Some(n);
    PieceIsTaken(copies, length, nsym, decoder, j);
    TakenIsListed(WordsAt(copies, j), nsym, decoder, n);
  }

  lemma TakenIsListed(words: seq<seq<Byte>>, nsym: nat, decoder: Decoder, source: nat)
    requires TakenFrom(words, nsym, decoder, source)
    ensures source < |words|
  {}

  ghost function SourceAt(copies: seq<seq<Byte>>, length: nat, nsym: nat, decoder: Decoder, index: nat): Option<nat>
    requires SameShape(copies, length, nsym) && index < CodewordCount(length)
  {
    match PieceAt(copies, length, nsym, decoder, index)
    case None => None
    case Some(piece) => Some(piece.source)
  }

  lemma {:induction false} DecodedMeans(copies: seq<seq<Byte>>, length: nat, nsym: nat, decoder: Decoder, count: nat)
    requires SameShape(copies, length, nsym) && count <= CodewordCount(length)
    requires RepairUpTo(copies, length, nsym, decoder, count).data.Some?
    ensures RepairUpTo(copies, length, nsym, decoder, count).decoded <==> exists j: nat :: j < count && NoCopyConsistent(copies, nsym, j)
  {
    hide NoCopyConsistent, PieceAt;
    if count > 0 {
      DecodedMeans(copies, length, nsym, decoder, count - 1);
      PieceIsDecoded(copies, length, nsym, decoder, count - 1);
    }
  }

  // ----- decoding one block

  // The next listed codeword: everything before it is clean.
  lemma {:induction false} NextDamaged(words: seq<seq<Byte>>, first: nat, nsym: nat)
    requires first <= |words|
    ensures var damaged := DamagedFrom(words, first, nsym);
            damaged != [] ==>
              && first <= damaged[0] < |words| && !Vanishes(words[damaged[0]], nsym)
              && damaged[1..] == DamagedFrom(words, damaged[0] + 1, nsym)
    decreases |words| - first
  {
    hide Vanishes;
    if first < |words| {
      if Vanishes(words[first], nsym) {
        assert DamagedFrom(words, first, nsym) == DamagedFrom(words, first + 1, nsym);
        NextDamaged(words, first + 1, nsym);
      } else {
        var rest := DamagedFrom(words, first + 1, nsym);
        assert DamagedFrom(words, first, nsym) == [first] + rest;
        assert ([first] + rest)[1..] == rest;
      }
    }
  }

  lemma {:induction false} CleanBefore(words: seq<seq<Byte>>, first: nat, nsym: nat, index: nat)
    requires first <= index < |words|
    ensures var damaged := DamagedFrom(words, first, nsym);
            damaged == [] || index < damaged[0] ==> Vanishes(words[index], nsym)
    decreases |words| - first
  {
    hide Vanishes;
    if Vanishes(words[first], nsym) && first < index {
      assert DamagedFrom(words, first, nsym) == DamagedFrom(words, first + 1, nsym);
      CleanBefore(words, first + 1, nsym, index);
    }
  }

  lemma CleanPiece(encoded: seq<Byte>, nsym: nat, decoder: Decoder, index: nat)
    requires SameShape([encoded], |encoded|, nsym) && index < CodewordCount(|encoded|)
    ensures nsym < |CodewordAt(encoded, index)|
    ensures PieceAt([encoded], |encoded|, nsym, decoder, index)
         == if Vanishes(CodewordAt(encoded, index), nsym) then Some(Piece(0, Message(CodewordAt(encoded, index), nsym), false))
            else DecodedPiece([CodewordAt(encoded, index)], nsym, decoder)
  {
    RestShape(encoded, nsym, index);
    WordsAreLong([encoded], |encoded|, nsym, index);
    hide Vanishes, CodewordAt, DecodedPiece;
    var words := [CodewordAt(encoded, index)];
    assert WordsAt([encoded], index) == words;
    assert FirstConsistent(words, nsym, 1) == None;
  }

  // Passing over a clean codeword leaves the buffer as it is.
  lemma CleanStep(encoded: seq<Byte>, nsym: nat, decoder: Decoder, pieces: seq<Byte>, index: nat)
    requires SameShape([encoded], |encoded|, nsym) && index < CodewordCount(|encoded|)
    requires Vanishes(CodewordAt(encoded, index), nsym)
    requires Holds(pieces, RepairUpTo([encoded], |encoded|, nsym, decoder, index), encoded, nsym, index)
    ensures Holds(pieces, RepairUpTo([encoded], |encoded|, nsym, decoder, index + 1), encoded, nsym, index + 1)
  {
    hide *;
    ShapeFacts([encoded], |encoded|, nsym);
    CleanPiece(encoded, nsym, decoder, index);
    RestShape(encoded, nsym, index + 1);
    HoldsMeans(pieces, RepairUpTo([encoded], |encoded|, nsym, decoder, index), encoded, nsym, index);
    StripRest(encoded, nsym, index);
    PieceAppended([encoded], |encoded|, nsym, decoder, index);
    var before := RepairUpTo([encoded], |encoded|, nsym, decoder, index).data.value;
    var message := Message(CodewordAt(encoded, index), nsym);
    AppendAssociates(before, message, StripWords(RestFrom(encoded, index + 1), nsym));
    HoldsIntro(RepairUpTo([encoded], |encoded|, nsym, decoder, index + 1), before + message, encoded, nsym, index + 1);
  }

  lemma AppendAssociates(a: seq<Byte>, b: seq<Byte>, c: seq<Byte>)
    ensures a + (b + c) == (a + b) + c
  {}

  lemma {:induction false} CleanRun(encoded: seq<Byte>, nsym: nat, decoder: Decoder, pieces: seq<Byte>, first: nat, count: nat)
    requires SameShape([encoded], |encoded|, nsym) && first <= count <= CodewordCount(|encoded|)
    requires forall i :: first <= i < count ==> Vanishes(Codewords(encoded)[i], nsym)
    requires Holds(pieces, RepairUpTo([encoded], |encoded|, nsym, decoder, first), encoded, nsym, first)
    ensures Holds(pieces, RepairUpTo([encoded], |encoded|, nsym, decoder, count), encoded, nsym, count)
    decreases count - first
  {
    hide *;
    if first < count {
      CodewordAtIndex(encoded, first);
      ShapeFacts([encoded], |encoded|, nsym);
      CleanStep(encoded, nsym, decoder, pieces, first);
      CleanRun(encoded, nsym, decoder, pieces, first + 1, count);
    }
  }

  // The buffer after the codewords before `next` were treated, with the listed ones still to come.
  ghost predicate Decoding(encoded: seq<Byte>, nsym: nat, decoder: Decoder, pieces: seq<Byte>, next: nat, pending: seq<nat>) {
    && SameShape([encoded], |encoded|, nsym)
    && next <= CodewordCount(|encoded|)
    && pending == DamagedFrom(Codewords(encoded), next, nsym)
    && Holds(pieces, RepairUpTo([encoded], |encoded|, nsym, decoder, next), encoded, nsym, next)
  }

  // The clean codewords before the next listed one are passed over.
  lemma DecodeReach(encoded: seq<Byte>, nsym: nat, decoder: Decoder, pieces: seq<Byte>, next: nat, pending: seq<nat>)
    requires Decoding(encoded, nsym, decoder, pieces, next, pending) && pending != []
    ensures SameShape([encoded], |encoded|, nsym) && ValidNsym(nsym)
    ensures pending[0] < CodewordCount(|encoded|)
    ensures !Vanishes(Codewords(encoded)[pending[0]], nsym)
    ensures Holds(pieces, RepairUpTo([encoded], |encoded|, nsym, decoder, pending[0]), encoded, nsym, pending[0])
    ensures pending[1..] == DamagedFrom(Codewords(encoded), pending[0] + 1, nsym)
  {
    var words := Codewords(encoded);
    var index := pending[0];
    hide Vanishes, Codewords, SameShape, Holds, RepairUpTo, CodewordCount, DamagedFrom;
    ShapeFacts([encoded], |encoded|, nsym);
    NextDamaged(words, next, nsym);
    forall i: nat | next <= i < index ensures Vanishes(words[i], nsym) {
      CleanBefore(words, next, nsym, i);
    }
    CleanRun(encoded, nsym, decoder, pieces, next, index);
  }

  lemma DecodeTurn(encoded: seq<Byte>, nsym: nat, decoder: Decoder, pieces: seq<Byte>, next: nat, pending: seq<nat>)
    requires Decoding(encoded, nsym, decoder, pieces, next, pending) && pending != [] && DecoderContract(decoder, nsym)
    ensures pending[0] < CodewordCount(|encoded|) && ValidNsym(nsym) && SameShape([encoded], |encoded|, nsym)
    ensures decoder(CodewordAt(encoded, pending[0]), {}).None? ==>
      RepairUpTo([encoded], |encoded|, nsym, decoder, CodewordCount(|encoded|)).data.None?
    ensures decoder(CodewordAt(encoded, pending[0]), {}).Some? ==>
      Decoding(encoded, nsym, decoder,
               SliceAssign(pieces, MessageStart(nsym, pending[0]), decoder(CodewordAt(encoded, pending[0]), {}).value),
               pending[0] + 1, pending[1..])
  {
    hide *;
    DecodeReach(encoded, nsym, decoder, pieces, next, pending);
    var index := pending[0];
    DamagedPiece(encoded, nsym, decoder, index);
    HoldsMeans(pieces, RepairUpTo([encoded], |encoded|, nsym, decoder, index), encoded, nsym, index);
    RepairStep([encoded], |encoded|, nsym, decoder, index);
    var decoded := decoder(CodewordAt(encoded, index), {});
    if decoded.None? {
      FailureStays([encoded], |encoded|, nsym, decoder, index + 1, CodewordCount(|encoded|));
    } else {
      RepairAdvance([encoded], |encoded|, nsym, decoder, index, pieces);
      var buffer := SliceAssign(pieces, MessageStart(nsym, index), decoded.value);
      DecodingIntro(encoded, nsym, decoder, buffer, index + 1, pending[1..]);
    }
  }

  lemma DecodingIntro(encoded: seq<Byte>, nsym: nat, decoder: Decoder, pieces: seq<Byte>, next: nat, pending: seq<nat>)
    requires SameShape([encoded], |encoded|, nsym) && next <= CodewordCount(|encoded|)
    requires pending == DamagedFrom(Codewords(encoded), next, nsym)
    requires Holds(pieces, RepairUpTo([encoded], |encoded|, nsym, decoder, next), encoded, nsym, next)
    ensures Decoding(encoded, nsym, decoder, pieces, next, pending)
  {}

  lemma DecodeEnd(encoded: seq<Byte>, nsym: nat, decoder: Decoder, pieces: seq<Byte>, next: nat)
    requires Decoding(encoded, nsym, decoder, pieces, next, [])
    ensures RepairUpTo([encoded], |encoded|, nsym, decoder, CodewordCount(|encoded|)).data == Some(pieces)
  {
    var words := Codewords(encoded);
    hide Vanishes, Codewords, SameShape, Holds, RepairUpTo, CodewordCount, DamagedFrom;
    ShapeFacts([encoded], |encoded|, nsym);
    forall i: nat | next <= i < |words| ensures Vanishes(words[i], nsym) {
      CleanBefore(words, next, nsym, i);
    }
    CleanRun(encoded, nsym, decoder, pieces, next, |words|);
    RepairEnds([encoded], |encoded|, nsym, decoder, pieces);
  }

  lemma DecodeStart(encoded: seq<Byte>, nsym: nat, decoder: Decoder)
    requires ValidNsym(nsym) && IsWellFormed(|encoded|, nsym)
    ensures SameShape([encoded], |encoded|, nsym)
    ensures Decoding(encoded, nsym, decoder, StripWords(encoded, nsym), 0, DamagedFrom(Codewords(encoded), 0, nsym))
  {
    OneShape(encoded, nsym);
    hide Codewords, StripWords, Holds, RepairUpTo, DamagedFrom;
    RepairBegins([encoded], |encoded|, nsym, decoder);
  }

  lemma TailStep(listed: seq<nat>, k: nat)
    requires k < |listed|
    ensures listed[k..] != [] && listed[k..][0] == listed[k] && listed[k..][1..] == listed[k + 1..]
  {}

  lemma WholeTail(listed: seq<nat>)
    ensures listed[0..] == listed && listed[|listed|..] == []
  {}

  // Overwriting the stripped block at every listed codeword.
  method DecodeListed(encoded: seq<Byte>, listed: seq<nat>, nsym: nat, decoder: Decoder) returns (data: Option<seq<Byte>>)
    requires ValidNsym(nsym) && IsWellFormed(|encoded|, nsym) && DecoderContract(decoder, nsym)
    requires listed == DamagedFrom(Codewords(encoded), 0, nsym)
    ensures SameShape([encoded], |encoded|, nsym)
    ensures data == RepairUpTo([encoded], |encoded|, nsym, decoder, CodewordCount(|encoded|)).data
  {
    hide *;
    DecodeStart(encoded, nsym, decoder);
    var pieces := StripWords(encoded, nsym);
    ghost var next: nat := 0;
    WholeTail(listed);
    for k := 0 to |listed|
      invariant Decoding(encoded, nsym, decoder, pieces, next, listed[k..])
    {
      var index := listed[k];
      TailStep(listed, k);
      DecodeTurn(encoded, nsym, decoder, pieces, next, listed[k..]);
      var repaired := decoder(CodewordAt(encoded, index), {});
      if repaired.None? {
        return None;
      }
      pieces := SliceAssign(pieces, MessageStart(nsym, index), repaired.value);
      next := index + 1;
    }
    DecodeEnd(encoded, nsym, decoder, pieces, next);
    data := Some(pieces);
  }

  // decode: the stripped block with every listed codeword overwritten by its decoded message.
  // A block that is not well formed goes to the decoder whole.
  method Decode(encoded: seq<Byte>, table: seq<seq<seq<Byte>>>, nsym: nat, decoder: Decoder, decodeWhole: seq<Byte> -> Option<seq<Byte>>)
    returns (data: Option<seq<Byte>>)
    requires IsParityTable(table, nsym) && DecoderContract(decoder, nsym)
    ensures ValidNsym(nsym)
    ensures !IsWellFormed(|encoded|, nsym) ==> data == decodeWhole(encoded)
    ensures IsWellFormed(|encoded|, nsym) ==>
      && SameShape([encoded], |encoded|, nsym)
      && data == RepairUpTo([encoded], |encoded|, nsym, decoder, CodewordCount(|encoded|)).data
  {
    hide *;
    ParityTableNsym(table, nsym);
    var damaged := DamagedCodewords(encoded, table, nsym);
    if damaged.None? {
      return decodeWhole(encoded);
    }
    data := DecodeListed(encoded, damaged.value, nsym, decoder);
  }

  lemma OneShape(encoded: seq<Byte>, nsym: nat)
    requires ValidNsym(nsym) && IsWellFormed(|encoded|, nsym)
    ensures SameShape([encoded], |encoded|, nsym)
  {}

  lemma DamagedPiece(encoded: seq<Byte>, nsym: nat, decoder: Decoder, index: nat)
    requires SameShape([encoded], |encoded|, nsym) && index < CodewordCount(|encoded|)
    requires !Vanishes(Codewords(encoded)[index], nsym)
    ensures var piece := PieceAt([encoded], |encoded|, nsym, decoder, index);
            match decoder(CodewordAt(encoded, index), {})
            case None => piece.None?
            case Some(data) => piece.Some? && piece.value.data == data
  {
    hide Vanishes, Codewords, CodewordAt, PieceAt;
    CodewordAtIndex(encoded, index);
    CleanPiece(encoded, nsym, decoder, index);
    var words := [CodewordAt(encoded, index)];
    assert FirstDecoded(words, {}, decoder, 1) == None;
    FirstDecodedMeans(words, {}, decoder, 0);
  }

  // A block whose codewords each have at most nsym / 2 changed symbols decodes to its data.
  lemma SingleCopyDecode(data: seq<Byte>, got: seq<Byte>, nsym: nat, decoder: Decoder)
    requires ValidNsym(nsym) && DecoderContract(decoder, nsym)
    requires |got| == |EncodeBlock(data, nsym)|
    requires forall i: nat :: i < CodewordCount(|got|) ==>
      |Changed(CodewordAt(EncodeBlock(data, nsym), i), CodewordAt(got, i))| <= nsym / 2
    ensures SameShape([got], |got|, nsym)
    ensures RepairUpTo([got], |got|, nsym, decoder, CodewordCount(|got|)).data == Some(data)
  {
    var encoded := EncodeBlock(data, nsym);
    EncodedBlockIsSound(data, nsym);
    OneShape(got, nsym);
    hide EncodeBlock, CodewordAt, Codewords, Changed, DecoderContract, Vanishes, PieceAt, RepairUpTo, StripWords, IsWellFormed, SameShape;
    forall i: nat | i < CodewordCount(|encoded|)
      ensures nsym <= |CodewordAt(encoded, i)|
      ensures PieceAt([got], |encoded|, nsym, decoder, i).Some?
      ensures PieceAt([got], |encoded|, nsym, decoder, i).value.data == Message(CodewordAt(encoded, i), nsym)
    {
      CodewordAtIndex(encoded, i);
      PieceOfOne(encoded, got, nsym, decoder, i);
    }
    PiecesMakeAll(encoded, [got], nsym, decoder);
  }

  lemma PieceOfOne(encoded: seq<Byte>, got: seq<Byte>, nsym: nat, decoder: Decoder, index: nat)
    requires SameShape([got], |encoded|, nsym) && index < CodewordCount(|encoded|) && DecoderContract(decoder, nsym)
    requires |got| == |encoded| && Vanishes(CodewordAt(encoded, index), nsym)
    requires |Changed(CodewordAt(encoded, index), CodewordAt(got, index))| <= nsym / 2
    ensures nsym <= |CodewordAt(encoded, index)|
    ensures var piece := PieceAt([got], |encoded|, nsym, decoder, index);
            piece.Some? && piece.value.data == Message(CodewordAt(encoded, index), nsym)
  {
    RestShape(encoded, nsym, index);
    hide CodewordAt, Changed, DecoderContract, Vanishes, PieceAt;
    CleanPiece(got, nsym, decoder, index);
    var sent, word := CodewordAt(encoded, index), CodewordAt(got, index);
    if Vanishes(word, nsym) {
      CloseCodewordIsSent(sent, word, nsym);
    } else {
      DecodesWithin(sent, word, {}, nsym, decoder);
      FirstDecodedMeans([word], {}, decoder, 0);
      assert decoder([word][0], {}).Some?;
    }
  }

  // ----- any number of copies

  // What is asked of one copy or of two copies of a codeword.
  ghost predicate WordRepairable(sent: seq<Byte>, words: seq<seq<Byte>>, nsym: nat, decoder: Decoder) {
    && (forall n :: 0 <= n < |words| ==> |words[n]| == |sent|)
    && if |words| == 1 then (if Vanishes(words[0], nsym) then words[0] == sent else |Changed(sent, words[0])| <= nsym / 2)
       else |words| == 2 && Repairable(sent, words[0], words[1], nsym, decoder)
  }

  lemma PieceOfCopies(encoded: seq<Byte>, copies: seq<seq<Byte>>, nsym: nat, decoder: Decoder, index: nat)
    requires SameShape(copies, |encoded|, nsym) && index < CodewordCount(|encoded|) && DecoderContract(decoder, nsym)
    requires Vanishes(CodewordAt(encoded, index), nsym)
    requires WordRepairable(CodewordAt(encoded, index), WordsAt(copies, index), nsym, decoder)
    ensures nsym <= |CodewordAt(encoded, index)|
    ensures var piece := PieceAt(copies, |encoded|, nsym, decoder, index);
            piece.Some? && piece.value.data == Message(CodewordAt(encoded, index), nsym)
  {
    hide CodewordAt, Changed, DecoderContract, Vanishes, PieceAt, Repairable, IsWellFormed;
    var words := WordsAtMeans(copies, |encoded|, nsym, index);
    if |copies| == 2 {
      assert copies == [copies[0], copies[1]];
      PieceOfTwo(encoded, copies[0], copies[1], nsym, decoder, index);
    } else {
      assert copies == [copies[0]];
      if Vanishes(words[0], nsym) {
        CleanPiece(copies[0], nsym, decoder, index);
      } else {
        PieceOfOne(encoded, copies[0], nsym, decoder, index);
      }
    }
  }

  // The copies of an encoded block give its data back whenever each codeword index is repairable.
  lemma CopiesRepair(data: seq<Byte>, copies: seq<seq<Byte>>, nsym: nat, decoder: Decoder)
    requires ValidNsym(nsym) && DecoderContract(decoder, nsym) && SameShape(copies, |EncodeBlock(data, nsym)|, nsym)
    requires forall j: nat :: j < CodewordCount(|EncodeBlock(data, nsym)|) ==>
      WordRepairable(CodewordAt(EncodeBlock(data, nsym), j), WordsAt(copies, j), nsym, decoder)
    ensures RepairUpTo(copies, |EncodeBlock(data, nsym)|, nsym, decoder, CodewordCount(|EncodeBlock(data, nsym)|)).data == Some(data)
  {
    var encoded := EncodeBlock(data, nsym);
    EncodedBlockIsSound(data, nsym);
    hide EncodeBlock, CodewordAt, Codewords, WordRepairable, DecoderContract, Vanishes, PieceAt, RepairUpTo, StripWords, IsWellFormed, SameShape;
    forall i: nat | i < CodewordCount(|encoded|)
      ensures nsym <= |CodewordAt(encoded, i)|
      ensures PieceAt(copies, |encoded|, nsym, decoder, i).Some?
      ensures PieceAt(copies, |encoded|, nsym, decoder, i).value.data == Message(CodewordAt(encoded, i), nsym)
    {
      CodewordAtIndex(encoded, i);
      PieceOfCopies(encoded, copies, nsym, decoder, i);
    }
    PiecesMakeAll(encoded, copies, nsym, decoder);
  }
}
