// Generator, remainders and parity of dbs/container/rs.py: what the tables hold and why the
// symbols they produce complete a message to a word of the code.
module Parity {
  import opened Bytes
  import opened GaloisField
  import opened ReedSolomon

  // ----- the generator polynomial

  // A polynomial times (x - root).
  function TimesLinear(poly: seq<Byte>, root: Byte): (product: seq<Byte>)
    ensures |product| == |poly| + 1
  {
    XorWords(poly + [ZERO], [ZERO] + Scale(root, poly))
  }

  // The product of (x - x^k) for k below nsym:
  //   GeneratorOf(nsym) == if nsym == 0 then 1 else GeneratorOf(nsym - 1) * (x - x^(nsym - 1)),
  // which GeneratorStep states.  One recurrence handed on by three functions, so that a proof that
  // only meets a generator does not expand it.
  function GeneratorOf(nsym: nat): (poly: seq<Byte>)
    ensures |poly| == nsym + 1
    decreases nsym, 2
  {
    Factors(nsym)
  }

  function Factors(nsym: nat): (poly: seq<Byte>)
    ensures |poly| == nsym + 1
    decreases nsym, 1
  {
    LastFactor(nsym)
  }

  function LastFactor(nsym: nat): (poly: seq<Byte>)
    ensures |poly| == nsym + 1
    decreases nsym, 0
  {
    if nsym == 0 then [ONE] else TimesLinear(GeneratorOf(nsym - 1), Alpha(nsym - 1))
  }

  lemma GeneratorStep(nsym: nat)
    ensures GeneratorOf(nsym) == if nsym == 0 then [ONE] else TimesLinear(GeneratorOf(nsym - 1), Alpha(nsym - 1))
  {
    hide TimesLinear, Alpha;
    assert GeneratorOf(nsym) == Factors(nsym);
    assert Factors(nsym) == LastFactor(nsym);
  }

  lemma TimesLinearEvaluate(poly: seq<Byte>, root: Byte, j: nat)
    ensures Evaluate(TimesLinear(poly, root), j) == Multiply(Evaluate(poly, j), Xor(Alpha(j), root))
  {
    hide *;
    var value := Evaluate(poly, j);
    AppendZero(poly, j);
    LeadingZero(Scale(root, poly), j);
    EvaluateScale(root, poly, j);
    MultiplyCommutes(root, value);
    MultiplyXorRight(value, Alpha(j), root);
    TimesLinearUnfold(poly, root, j);
  }

  lemma TimesLinearUnfold(poly: seq<Byte>, root: Byte, j: nat)
    ensures Evaluate(TimesLinear(poly, root), j)
         == Xor(Evaluate(poly + [ZERO], j), Evaluate([ZERO] + Scale(root, poly), j))
  {
    hide Xor, Multiply, Evaluate;
    EvaluateXor(poly + [ZERO], [ZERO] + Scale(root, poly), j);
  }

  lemma AppendZero(w: seq<Byte>, j: nat)
    ensures Evaluate(w + [ZERO], j) == Multiply(Evaluate(w, j), Alpha(j))
  {
    hide *;
    EvaluateConcat(w, [ZERO], j);
    MultiplyZero(PowerAt(j, 0));
    PowerEdges(j);
    XorZero(ZERO);
    EvaluateStep([ZERO], j);
    EvaluateStep([ZERO][1..], j);
    XorZero(Multiply(Evaluate(w, j), Alpha(j)));
  }

  lemma LeadingZero(w: seq<Byte>, j: nat)
    ensures Evaluate([ZERO] + w, j) == Evaluate(w, j)
  {
    hide *;
    EvaluateStep([ZERO] + w, j);
    assert ([ZERO] + w)[1..] == w;
    MultiplyZero(PowerAt(j, |w|));
    XorZero(Evaluate(w, j));
  }

  // The generator is monic and vanishes at each of its nsym roots.
  lemma {:induction false} GeneratorVanishes(nsym: nat)
    ensures GeneratorOf(nsym)[0] == ONE
    ensures Vanishes(GeneratorOf(nsym), nsym)
  {
    hide *;
    GeneratorStep(nsym);
    if nsym == 0 {
      VanishesIntro(GeneratorOf(0), 0);
    } else {
      var smaller, root := GeneratorOf(nsym - 1), Alpha(nsym - 1);
      GeneratorVanishes(nsym - 1);
      TimesLinearLead(smaller, root);
      forall j: nat | j < nsym ensures Evaluate(GeneratorOf(nsym), j) == ZERO {
        TimesLinearEvaluate(smaller, root, j);
        XorCancels(Alpha(j), root);
        MultiplyZero(Xor(Alpha(j), root));
        MultiplyZero(Evaluate(smaller, j));
        if j < nsym - 1 {
          VanishesAt(smaller, nsym - 1, j);
        }
      }
      VanishesIntro(GeneratorOf(nsym), nsym);
    }
  }

  lemma VanishesAt(w: seq<Byte>, nsym: nat, j: nat)
    requires Vanishes(w, nsym) && j < nsym
    ensures Evaluate(w, j) == ZERO
  {}

  lemma TimesLinearLead(poly: seq<Byte>, root: Byte)
    requires |poly| > 0
    ensures TimesLinear(poly, root)[0] == poly[0]
  {
    hide Xor, Multiply;
    XorZero(poly[0]);
  }

  // ----- powers of x modulo the generator

  function NextRemainder(remainder: seq<Byte>, tail: seq<Byte>): (next: seq<Byte>)
    requires |remainder| == |tail| > 0
    ensures |next| == |tail|
  {
    XorWords(remainder[1..] + [ZERO], Scale(remainder[0], tail))
  }

  // x^(nsym + k) modulo the generator: for k == 0 the generator without its leading one, else the
  // remainder before it times x, reduced once, which RemainderStep states.  One recurrence handed on
  // by three functions, so that a proof that only meets a remainder does not expand it.
  function RemainderAt(nsym: nat, k: nat): (remainder: seq<Byte>)
    requires nsym > 0
    ensures |remainder| == nsym
    decreases k, 2
  {
    RemainderFrom(nsym, k)
  }

  function RemainderFrom(nsym: nat, k: nat): (remainder: seq<Byte>)
    requires nsym > 0
    ensures |remainder| == nsym
    decreases k, 1
  {
    RemainderAfter(nsym, k)
  }

  function RemainderAfter(nsym: nat, k: nat): (remainder: seq<Byte>)
    requires nsym > 0
    ensures |remainder| == nsym
    decreases k, 0
  {
    if k == 0 then GeneratorOf(nsym)[1..] else NextRemainder(RemainderAt(nsym, k - 1), GeneratorOf(nsym)[1..])
  }

  lemma RemainderStep(nsym: nat, k: nat)
    requires nsym > 0
    ensures RemainderAt(nsym, k) == if k == 0 then GeneratorOf(nsym)[1..] else NextRemainder(RemainderAt(nsym, k - 1), GeneratorOf(nsym)[1..])
  {
    hide GeneratorOf, NextRemainder;
    assert RemainderAt(nsym, k) == RemainderFrom(nsym, k);
    assert RemainderFrom(nsym, k) == RemainderAfter(nsym, k);
  }

  lemma TailEvaluate(nsym: nat, j: nat)
    requires j < nsym
    ensures Evaluate(GeneratorOf(nsym)[1..], j) == PowerAt(j, nsym)
  {
    hide Xor, Multiply, Alpha, PowerAt, GeneratorOf, Evaluate;
    GeneratorVanishes(nsym);
    EvaluateStep(GeneratorOf(nsym), j);
    var lead := PowerAt(j, nsym);
    assert Evaluate(GeneratorOf(nsym), j) == ZERO;
    MultiplyOne(lead);
    XorCancels(lead, Evaluate(GeneratorOf(nsym)[1..], j));
  }

  // One step: the rest of the remainder times x, and its lead times the generator's tail.
  lemma NextRemainderEvaluate(remainder: seq<Byte>, tail: seq<Byte>, j: nat)
    requires |remainder| == |tail| > 0
    ensures Evaluate(NextRemainder(remainder, tail), j)
            == Xor(Multiply(Evaluate(remainder[1..], j), Alpha(j)), Multiply(remainder[0], Evaluate(tail, j)))
  {
    hide Xor, Multiply, Alpha, PowerAt, Evaluate, XorWords, Scale;
    var lead, rest := remainder[0], remainder[1..];
    EvaluateXor(rest + [ZERO], Scale(lead, tail), j);
    AppendZero(rest, j);
    EvaluateScale(lead, tail, j);
  }

  // A word times x, its lead taken apart.
  lemma TimesAlpha(word: seq<Byte>, j: nat)
    requires |word| > 0
    ensures Multiply(Evaluate(word, j), Alpha(j))
            == Xor(Multiply(Evaluate(word[1..], j), Alpha(j)), Multiply(word[0], PowerAt(j, |word|)))
  {
    hide Xor, Multiply, Alpha, PowerAt, Evaluate;
    var lead, rest := word[0], word[1..];
    assert word == [lead] + rest;
    LeadEvaluate(lead, rest, j);
    ShiftedLead(lead, |rest|, Evaluate(rest, j), j);
    XorCommutes(Multiply(Evaluate(rest, j), Alpha(j)), Multiply(lead, PowerAt(j, |word|)));
  }

  lemma ShiftedLead(lead: Byte, e: nat, rest: Byte, j: nat)
    ensures Multiply(Xor(Multiply(lead, PowerAt(j, e)), rest), Alpha(j))
         == Xor(Multiply(lead, PowerAt(j, e + 1)), Multiply(rest, Alpha(j)))
  {
    hide *;
    PowerSum(j, e, 1);
    PowerEdges(j);
    MultiplyAssociates(lead, PowerAt(j, e), Alpha(j));
    MultiplyXorLeft(Multiply(lead, PowerAt(j, e)), rest, Alpha(j));
  }

  lemma LeadEvaluate(lead: Byte, rest: seq<Byte>, j: nat)
    ensures Evaluate([lead] + rest, j) == Xor(Multiply(lead, PowerAt(j, |rest|)), Evaluate(rest, j))
  {
    hide *;
    EvaluateStep([lead] + rest, j);
    assert ([lead] + rest)[1..] == rest;
  }

  // At a root of the generator, the remainder of x^(nsym + k) has the value of x^(nsym + k).
  lemma {:induction false} RemainderEvaluate(nsym: nat, k: nat, j: nat)
    requires j < nsym
    ensures Evaluate(RemainderAt(nsym, k), j) == PowerAt(j, nsym + k)
  {
    hide *;
    TailEvaluate(nsym, j);
    RemainderStep(nsym, k);
    if k > 0 {
      RemainderEvaluate(nsym, k - 1, j);
      NextRemainderEvaluate(RemainderAt(nsym, k - 1), GeneratorOf(nsym)[1..], j);
      TimesAlpha(RemainderAt(nsym, k - 1), j);
      PowerSum(j, nsym + k - 1, 1);
      PowerEdges(j);
    }
  }

  // ----- the parity of a message

  // The exclusive or of the table rows of a message: symbol times remainder, position by position.
  function ParityOf(message: seq<Byte>, nsym: nat): (p: seq<Byte>)
    requires nsym > 0
    ensures |p| == nsym
  {
    if |message| == 0 then Zeros(nsym)
    else XorWords(Scale(message[0], RemainderAt(nsym, |message| - 1)), ParityOf(message[1..], nsym))
  }

  lemma {:induction false} ZerosEvaluate(n: nat, j: nat)
    ensures Evaluate(Zeros(n), j) == ZERO
  {
    hide Xor, Multiply, Alpha, PowerAt, Evaluate;
    EvaluateStep(Zeros(n), j);
    if n > 0 {
      ZerosEvaluate(n - 1, j);
      assert Zeros(n)[1..] == Zeros(n - 1);
      MultiplyZero(PowerAt(j, (n - 1)));
      XorZero(ZERO);
    }
  }

  // At every root the parity has the value of the message times x^nsym.
  lemma {:induction false} ParityEvaluate(message: seq<Byte>, nsym: nat, j: nat)
    requires j < nsym
    ensures Evaluate(ParityOf(message, nsym), j) == Multiply(Evaluate(message, j), PowerAt(j, nsym))
  {
    hide Xor, Multiply, Alpha, PowerAt, RemainderAt, XorWords, Scale, Evaluate;
    EvaluateStep(message, j);
    var shift := PowerAt(j, nsym);
    if |message| == 0 {
      ZerosEvaluate(nsym, j);
      MultiplyZero(shift);
    } else {
      var lead, rest := message[0], message[1..];
      var e := |rest|;
      EvaluateXor(Scale(lead, RemainderAt(nsym, e)), ParityOf(rest, nsym), j);
      EvaluateScale(lead, RemainderAt(nsym, e), j);
      RemainderEvaluate(nsym, e, j);
      ParityEvaluate(rest, nsym, j);
      PowerSum(j, e, nsym);
      MultiplyAssociates(lead, PowerAt(j, e), shift);
      MultiplyXorLeft(Multiply(lead, PowerAt(j, e)), Evaluate(rest, j), shift);
    }
  }

  // A message followed by its parity is a word of the code, full or shortened.
  lemma EncodedVanishes(message: seq<Byte>, nsym: nat)
    requires nsym > 0
    ensures Vanishes(message + ParityOf(message, nsym), nsym)
  {
    hide *;
    var p := ParityOf(message, nsym);
    forall j: nat | j < nsym ensures Evaluate(message + p, j) == ZERO {
      EvaluateConcat(message, p, j);
      ParityEvaluate(message, nsym, j);
      XorZero(Evaluate(p, j));
    }
    VanishesIntro(message + p, nsym);
  }

  // Two words of nsym symbols that agree at the nsym roots are equal.
  lemma RootsDetermine(v: seq<Byte>, w: seq<Byte>, nsym: nat)
    requires |v| == |w| == nsym <= 255
    requires forall j: nat :: j < nsym ==> Evaluate(v, j) == Evaluate(w, j)
    ensures v == w
  {
    hide *;
    DistanceIsWeight(v, w);
    WeightBound(XorWords(v, w));
    CloseWordsAgree(v, w, nsym);
  }

  // The parity is the only completion of a message to a word of the code.
  lemma ParityIsUnique(message: seq<Byte>, tail: seq<Byte>, nsym: nat)
    requires 0 < nsym == |tail| <= 255
    ensures Vanishes(message + tail, nsym) <==> tail == ParityOf(message, nsym)
  {
    EncodedVanishes(message, nsym);
    if Vanishes(message + tail, nsym) {
      hide Xor, Multiply, Alpha, PowerAt, Evaluate, ParityOf;
      forall j: nat | j < nsym ensures Evaluate(tail, j) == Evaluate(ParityOf(message, nsym), j) {
        EvaluateConcat(message, tail, j);
        assert Evaluate(message + tail, j) == ZERO;
        ParityEvaluate(message, nsym, j);
        XorCancels(Multiply(Evaluate(message, j), PowerAt(j, nsym)), Evaluate(tail, j));
      }
      RootsDetermine(tail, ParityOf(message, nsym), nsym);
    }
  }

  // ----- the simple definition: long division by the generator

  // Subtract the leading symbol times the divisor and drop it, until only a remainder is left.
  function DivisionRemainder(dividend: seq<Byte>, divisor: seq<Byte>): (remainder: seq<Byte>)
    requires |divisor| > 0
    ensures |dividend| >= |divisor| - 1 ==> |remainder| == |divisor| - 1
    decreases |dividend|
  {
    if |dividend| < |divisor| then dividend
    else
      var n := |divisor|;
      var reduced := XorWords(dividend[..n], Scale(dividend[0], divisor)) + dividend[n..];
      DivisionRemainder(reduced[1..], divisor)
  }

  // One division step keeps the value at every root of the divisor.
  lemma DivisionStepEvaluate(dividend: seq<Byte>, divisor: seq<Byte>, j: nat)
    requires 0 < |divisor| <= |dividend| && divisor[0] == ONE
    requires Evaluate(divisor, j) == ZERO
    ensures var n := |divisor|;
            var reduced := XorWords(dividend[..n], Scale(dividend[0], divisor)) + dividend[n..];
            Evaluate(reduced[1..], j) == Evaluate(dividend, j)
  {
    var n := |divisor|;
    var head, tail, lead := dividend[..n], dividend[n..], dividend[0];
    var top := XorWords(head, Scale(lead, divisor));
    hide Xor, Multiply, Alpha, PowerAt, Evaluate, XorWords, Scale;
    assert dividend == head + tail;
    MultiplyOne(lead);
    MultiplyCommutes(lead, ONE);
    XorZero(lead);
    assert top[0] == ZERO;
    assert (top + tail) == [ZERO] + (top + tail)[1..];
    LeadingZero((top + tail)[1..], j);
    EvaluateConcat(top, tail, j);
    EvaluateConcat(head, tail, j);
    EvaluateXor(head, Scale(lead, divisor), j);
    EvaluateScale(lead, divisor, j);
    MultiplyZero(lead);
    XorZero(Evaluate(head, j));
  }

  lemma {:induction false} DivisionEvaluate(dividend: seq<Byte>, divisor: seq<Byte>, j: nat)
    requires |divisor| > 0 && divisor[0] == ONE
    requires Evaluate(divisor, j) == ZERO
    ensures Evaluate(DivisionRemainder(dividend, divisor), j) == Evaluate(dividend, j)
    decreases |dividend|
  {
    hide Evaluate, XorWords, Scale;
    if |dividend| >= |divisor| {
      var n := |divisor|;
      var reduced := XorWords(dividend[..n], Scale(dividend[0], divisor)) + dividend[n..];
      DivisionStepEvaluate(dividend, divisor, j);
      DivisionEvaluate(reduced[1..], divisor, j);
    }
  }

  // The table-driven parity is message(x) * x^nsym modulo the generator.
  lemma ParityIsDivisionRemainder(message: seq<Byte>, nsym: nat)
    requires 0 < nsym <= 255
    ensures ParityOf(message, nsym) == DivisionRemainder(message + Zeros(nsym), GeneratorOf(nsym))
  {
    GeneratorVanishes(nsym);
    hide Xor, Multiply, Alpha, PowerAt, Evaluate, ParityOf, DivisionRemainder, GeneratorOf;
    var divided := DivisionRemainder(message + Zeros(nsym), GeneratorOf(nsym));
    forall j: nat | j < nsym ensures Evaluate(ParityOf(message, nsym), j) == Evaluate(divided, j) {
      assert Evaluate(GeneratorOf(nsym), j) == ZERO;
      DivisionEvaluate(message + Zeros(nsym), GeneratorOf(nsym), j);
      EvaluateConcat(message, Zeros(nsym), j);
      ZerosEvaluate(nsym, j);
      ParityEvaluate(message, nsym, j);
      XorZero(Multiply(Evaluate(message, j), PowerAt(j, nsym)));
    }
    RootsDetermine(ParityOf(message, nsym), divided, nsym);
  }
}
