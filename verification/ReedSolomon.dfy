// The systematic Reed-Solomon code of dbs/container/rs.py.
//
// A word is a sequence of symbols, the first one carrying the highest power.  The code with
// `nsym` check symbols is the set of words that vanish at the powers 0 to nsym-1 of x.
module ReedSolomon {
  import opened Bytes
  import opened GaloisField

  const CODEWORD_SIZE: nat := 255

  // The e-th power of the j-th evaluation point.
  function PowerAt(j: nat, e: nat): Byte {
    if e == 0 then ONE else Multiply(PowerAt(j, e - 1), Alpha(j))
  }

  lemma {:induction false} PowerIsAlpha(j: nat, e: nat)
    ensures PowerAt(j, e) == Alpha(j * e)
  {
    hide Multiply;
    if e == 0 {
      assert j * e == 0;
    } else {
      PowerIsAlpha(j, e - 1);
      AlphaSum(j * (e - 1), j);
      assert j * (e - 1) + j == j * e;
    }
  }

  lemma PowerSum(j: nat, a: nat, b: nat)
    ensures Multiply(PowerAt(j, a), PowerAt(j, b)) == PowerAt(j, a + b)
  {
    hide *;
    PowerIsAlpha(j, a);
    PowerIsAlpha(j, b);
    PowerIsAlpha(j, a + b);
    AlphaSum(j * a, j * b);
    assert j * (a + b) == j * a + j * b;
  }

  lemma PowerNext(j: nat, e: nat)
    ensures Multiply(Alpha(e), PowerAt(j, e)) == PowerAt(j + 1, e)
  {
    hide *;
    PowerIsAlpha(j, e);
    PowerIsAlpha(j + 1, e);
    AlphaSum(e, j * e);
    assert e + j * e == (j + 1) * e;
  }

  lemma PowerEdges(j: nat)
    ensures PowerAt(j, 1) == Alpha(j) && PowerAt(j, 0) == ONE
  {
    hide Multiply, Alpha;
    PowerIsAlpha(j, 1);
  }

  lemma PowerOfOne(e: nat)
    ensures PowerAt(0, e) == ONE
  {
    hide Multiply;
    PowerIsAlpha(0, e);
    assert 0 * e == 0;
  }

  // The value of a word, read as a polynomial, at the j-th power of x:
  //   Evaluate(w, j) == if w is empty then 0 else w[0] * x^(j * (|w| - 1)) + Evaluate(w[1..], j),
  // which EvaluateStep states.  As with Multiply it is one recurrence handed on by three functions,
  // so that a proof that only meets a value does not expand it.
  function Evaluate(w: seq<Byte>, j: nat): Byte
    decreases |w|, 2
  {
    SumOfTerms(w, j)
  }

  function SumOfTerms(w: seq<Byte>, j: nat): Byte
    decreases |w|, 1
  {
    if |w| == 0 then ZERO else LeadingTerm(w, j)
  }

  function LeadingTerm(w: seq<Byte>, j: nat): Byte
    requires |w| > 0
    decreases |w|, 0
  {
    Xor(Multiply(w[0], PowerAt(j, |w| - 1)), Evaluate(w[1..], j))
  }

  lemma EvaluateStep(w: seq<Byte>, j: nat)
    ensures Evaluate(w, j) == if |w| == 0 then ZERO else Xor(Multiply(w[0], PowerAt(j, |w| - 1)), Evaluate(w[1..], j))
  {
    hide Xor, Multiply, PowerAt;
    assert Evaluate(w, j) == SumOfTerms(w, j);
    if |w| > 0 {
      assert SumOfTerms(w, j) == LeadingTerm(w, j);
    }
  }

  ghost predicate Vanishes(w: seq<Byte>, nsym: nat) {
    forall j: nat :: j < nsym ==> Evaluate(w, j) == ZERO
  }

  // How many symbols are not zero.
  function Weight(w: seq<Byte>): nat {
    if |w| == 0 then 0 else (if w[0] == ZERO then 0 else 1) + Weight(w[1..])
  }

  // In how many positions two words of one length differ.
  function Distance(v: seq<Byte>, w: seq<Byte>): nat
    requires |v| == |w|
  {
    if |v| == 0 then 0 else (if v[0] == w[0] then 0 else 1) + Distance(v[1..], w[1..])
  }

  function XorWords(v: seq<Byte>, w: seq<Byte>): (x: seq<Byte>)
    requires |v| == |w|
    ensures |x| == |v|
    ensures forall i :: 0 <= i < |x| ==> x[i] == Xor(v[i], w[i])
  {
    seq(|v|, i requires 0 <= i < |v| => Xor(v[i], w[i]))
  }

  function Scale(c: Byte, w: seq<Byte>): (x: seq<Byte>)
    ensures |x| == |w|
    ensures forall i :: 0 <= i < |x| ==> x[i] == Multiply(c, w[i])
  {
    seq(|w|, i requires 0 <= i < |w| => Multiply(c, w[i]))
  }

  // ----- evaluation is linear

  lemma {:induction false} EvaluateXor(v: seq<Byte>, w: seq<Byte>, j: nat)
    requires |v| == |w|
    ensures Evaluate(XorWords(v, w), j) == Xor(Evaluate(v, j), Evaluate(w, j))
  {
    hide *;
    XorZero(ZERO);
    EvaluateStep(v, j);
    EvaluateStep(w, j);
    EvaluateStep(XorWords(v, w), j);
    if |v| > 0 {
      var power := PowerAt(j, |v| - 1);
      assert XorWords(v, w)[1..] == XorWords(v[1..], w[1..]);
      EvaluateXor(v[1..], w[1..], j);
      MultiplyXorLeft(v[0], w[0], power);
      XorRegroup(Multiply(v[0], power), Multiply(w[0], power), Evaluate(v[1..], j), Evaluate(w[1..], j));
    }
  }

  lemma {:induction false} EvaluateScale(c: Byte, w: seq<Byte>, j: nat)
    ensures Evaluate(Scale(c, w), j) == Multiply(c, Evaluate(w, j))
  {
    hide *;
    MultiplyZero(c);
    EvaluateStep(w, j);
    EvaluateStep(Scale(c, w), j);
    if |w| > 0 {
      var power := PowerAt(j, |w| - 1);
      assert Scale(c, w)[1..] == Scale(c, w[1..]);
      EvaluateScale(c, w[1..], j);
      MultiplyAssociates(c, w[0], power);
      MultiplyXorRight(c, Multiply(w[0], power), Evaluate(w[1..], j));
    }
  }

  // Appending symbols multiplies by a power of the point.
  lemma {:induction false} EvaluateConcat(v: seq<Byte>, w: seq<Byte>, j: nat)
    ensures Evaluate(v + w, j) == Xor(Multiply(Evaluate(v, j), PowerAt(j, |w|)), Evaluate(w, j))
  {
    hide *;
    var shift := PowerAt(j, |w|);
    EvaluateStep(v, j);
    EvaluateStep(v + w, j);
    if |v| == 0 {
      assert v + w == w;
      MultiplyZero(shift);
      XorZero(Evaluate(w, j));
    } else {
      assert (v + w)[1..] == v[1..] + w;
      EvaluateConcat(v[1..], w, j);
      var e := |v| - 1;
      var head := Multiply(v[0], PowerAt(j, e));
      PowerSum(j, e, |w|);
      assert |v + w| - 1 == e + |w|;
      MultiplyAssociates(v[0], PowerAt(j, e), shift);
      MultiplyXorLeft(head, Evaluate(v[1..], j), shift);
      XorAssociates(Multiply(head, shift), Multiply(Evaluate(v[1..], j), shift), Evaluate(w, j));
    }
  }

  lemma {:induction false} WeightZero(w: seq<Byte>, j: nat)
    requires Weight(w) == 0
    ensures Evaluate(w, j) == ZERO
    ensures forall i :: 0 <= i < |w| ==> w[i] == ZERO
  {
    hide Xor, Multiply, Alpha, PowerAt, Evaluate;
    EvaluateStep(w, j);
    if |w| > 0 {
      WeightZero(w[1..], j);
      MultiplyZero(PowerAt(j, |w| - 1));
      XorZero(ZERO);
    }
  }

  lemma {:induction false} WeightBound(w: seq<Byte>)
    ensures Weight(w) <= |w|
  {
    if |w| > 0 {
      WeightBound(w[1..]);
    }
  }

  // A single nonzero symbol is the value at the zeroth power.
  lemma {:induction false} WeightOne(w: seq<Byte>)
    requires Weight(w) == 1
    ensures Evaluate(w, 0) != ZERO
  {
    hide Xor, Multiply, Alpha, PowerAt, Evaluate;
    EvaluateStep(w, 0);
    PowerOfOne(|w| - 1);
    MultiplyOne(w[0]);
    MultiplyCommutes(w[0], ONE);
    if w[0] == ZERO {
      WeightOne(w[1..]);
      XorZero(Evaluate(w[1..], 0));
    } else {
      WeightZero(w[1..], 0);
      XorZero(w[0]);
    }
  }

  // ----- minimum distance

  // Each symbol times the difference between its own locator and one fixed locator.
  function Peel(w: seq<Byte>, locator: Byte): (p: seq<Byte>)
    ensures |p| == |w|
  {
    if |w| == 0 then []
    else [Multiply(w[0], Xor(Alpha(|w| - 1), locator))] + Peel(w[1..], locator)
  }

  // Peeling trades two neighbouring syndromes of a word for one syndrome of the peeled word.
  lemma {:induction false} PeelEvaluate(w: seq<Byte>, locator: Byte, j: nat)
    ensures Evaluate(Peel(w, locator), j) == Xor(Evaluate(w, j + 1), Multiply(locator, Evaluate(w, j)))
  {
    hide Xor, Multiply, Alpha, PowerAt, Evaluate;
    EvaluateStep(w, j);
    EvaluateStep(w, j + 1);
    EvaluateStep(Peel(w, locator), j);
    if |w| == 0 {
      MultiplyZero(locator);
      XorZero(ZERO);
    } else {
      var e := |w| - 1;
      PeelEvaluate(w[1..], locator, j);
      assert Peel(w, locator)[1..] == Peel(w[1..], locator);
      PeelHead(w[0], e, locator, j);
      MultiplyXorRight(locator, Multiply(w[0], PowerAt(j, e)), Evaluate(w[1..], j));
      XorRegroup(Multiply(w[0], PowerAt(j + 1, e)), Multiply(locator, Multiply(w[0], PowerAt(j, e))),
                 Evaluate(w[1..], j + 1), Multiply(locator, Evaluate(w[1..], j)));
    }
  }

  lemma PeelHead(symbol: Byte, e: nat, locator: Byte, j: nat)
    ensures Multiply(Multiply(symbol, Xor(Alpha(e), locator)), PowerAt(j, e))
         == Xor(Multiply(symbol, PowerAt(j + 1, e)), Multiply(locator, Multiply(symbol, PowerAt(j, e))))
  {
    hide *;
    var power := PowerAt(j, e);
    MultiplyXorRight(symbol, Alpha(e), locator);
    MultiplyXorLeft(Multiply(symbol, Alpha(e)), Multiply(symbol, locator), power);
    MultiplyAssociates(symbol, Alpha(e), power);
    PowerNext(j, e);
    MultiplyAssociates(symbol, locator, power);
    MultiplySwap(symbol, locator, power);
  }

  // Peeling at a locator outside the word keeps every nonzero symbol.
  lemma {:induction false} PeelKeepsWeight(w: seq<Byte>, e: nat)
    requires |w| <= e < 255
    ensures Weight(Peel(w, Alpha(e))) == Weight(w)
  {
    hide Xor, Multiply, Alpha, PowerAt;
    if |w| > 0 {
      PeelKeepsWeight(w[1..], e);
      AlphaInjective(|w| - 1, e);
      XorCancels(Alpha(|w| - 1), Alpha(e));
      NoZeroDivisors(w[0], Xor(Alpha(|w| - 1), Alpha(e)));
      assert Peel(w, Alpha(e))[1..] == Peel(w[1..], Alpha(e));
    }
  }

  // Peeling at the locator of a nonzero symbol removes that symbol and no other.
  lemma {:induction false} PeelRemovesOne(w: seq<Byte>, e: nat)
    requires e < |w| <= 255 && w[|w| - 1 - e] != ZERO
    ensures Weight(Peel(w, Alpha(e))) == Weight(w) - 1
  {
    hide Xor, Multiply, Alpha, PowerAt;
    var own := Alpha(|w| - 1);
    assert Peel(w, Alpha(e))[1..] == Peel(w[1..], Alpha(e));
    XorCancels(own, Alpha(e));
    NoZeroDivisors(w[0], Xor(own, Alpha(e)));
    if e == |w| - 1 {
      PeelKeepsWeight(w[1..], e);
    } else {
      AlphaInjective(e, |w| - 1);
      PeelRemovesOne(w[1..], e);
    }
  }

  lemma {:induction false} SomeNonzero(w: seq<Byte>) returns (e: nat)
    requires Weight(w) > 0
    ensures e < |w| && w[|w| - 1 - e] != ZERO
  {
    if w[0] != ZERO {
      e := |w| - 1;
    } else {
      e := SomeNonzero(w[1..]);
    }
  }

  // A word that vanishes at nsym consecutive powers and has at most nsym nonzero symbols is zero.
  lemma {:induction false} LightWordsVanish(w: seq<Byte>, nsym: nat)
    requires |w| <= 255 && Vanishes(w, nsym) && Weight(w) <= nsym
    ensures Weight(w) == 0
    decreases nsym
  {
    hide Xor, Multiply, Alpha, PowerAt, Weight, Evaluate, Peel;
    if Weight(w) > 0 {
      var e := SomeNonzero(w);
      var peeled := Peel(w, Alpha(e));
      PeelRemovesOne(w, e);
      forall j: nat | j < nsym - 1 ensures Evaluate(peeled, j) == ZERO {
        PeelEvaluate(w, Alpha(e), j);
        MultiplyZero(Alpha(e));
        XorZero(ZERO);
      }
      assert Evaluate(w, 0) == ZERO;
      LightWordsVanish(peeled, nsym - 1);
      WeightOne(w);
    }
  }

  lemma {:induction false} DistanceIsWeight(v: seq<Byte>, w: seq<Byte>)
    requires |v| == |w|
    ensures Distance(v, w) == Weight(XorWords(v, w))
    ensures Distance(v, w) == 0 <==> v == w
  {
    hide Xor, XorWords;
    if |v| > 0 {
      DistanceIsWeight(v[1..], w[1..]);
      XorCancels(v[0], w[0]);
      assert XorWords(v, w)[1..] == XorWords(v[1..], w[1..]);
      assert v == [v[0]] + v[1..] && w == [w[0]] + w[1..];
    }
  }

  // Two words that agree at nsym powers and differ in at most nsym positions are equal.
  lemma CloseWordsAgree(v: seq<Byte>, w: seq<Byte>, nsym: nat)
    requires |v| == |w| <= 255 && Distance(v, w) <= nsym
    requires forall j: nat :: j < nsym ==> Evaluate(v, j) == Evaluate(w, j)
    ensures v == w
  {
    hide *;
    forall j: nat | j < nsym ensures Evaluate(XorWords(v, w), j) == ZERO {
      EvaluateXor(v, w, j);
      XorCancels(Evaluate(v, j), Evaluate(w, j));
    }
    VanishesIntro(XorWords(v, w), nsym);
    DistanceIsWeight(v, w);
    LightWordsVanish(XorWords(v, w), nsym);
  }

  lemma VanishesIntro(w: seq<Byte>, nsym: nat)
    requires forall j: nat :: j < nsym ==> Evaluate(w, j) == ZERO
    ensures Vanishes(w, nsym)
  {}

  // Different words of the code differ in more than nsym positions.
  lemma MinimumDistance(v: seq<Byte>, w: seq<Byte>, nsym: nat)
    requires |v| == |w| <= 255 && v != w
    requires Vanishes(v, nsym) && Vanishes(w, nsym)
    ensures Distance(v, w) >= nsym + 1
  {
    if Distance(v, w) <= nsym {
      CloseWordsAgree(v, w, nsym);
    }
  }
}
