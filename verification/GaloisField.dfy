// The field GF(2^8) of dbs/container/rs.py, built concretely on bytes.
//
// A byte is read as a polynomial over GF(2); addition is exclusive or and multiplication is
// the product of polynomials reduced by 0x11D.  The source multiplies through logarithm and
// exponential tables: FieldTables builds those tables and MultiplyByTables proves that they
// compute the polynomial product.
module GaloisField {

  import opened Bytes

  const ONE := Byte(false, false, false, false, false, false, false, true)

  // x^8 modulo the primitive polynomial: 0x11D without its leading term.
  const REDUCTION := Byte(false, false, false, true, true, true, false, true)

  // The lower seven bits, moved up one place.
  function Shift(v: Byte): Byte {
    Byte(v.b6, v.b5, v.b4, v.b3, v.b2, v.b1, v.b0, false)
  }

  // Multiplication by x: every bit moves up one place, and the bit that falls out is folded back
  // through x^8 = x^4 + x^3 + x^2 + 1.
  function Double(v: Byte): Byte {
    Byte(v.b6, v.b5, v.b4, v.b3 != v.b7, v.b2 != v.b7, v.b1 != v.b7, v.b0, v.b7)
  }

  predicate IsOdd(v: Byte) {
    v.b0
  }

  // How many bits are left once leading zeros are dropped.
  function Length(v: Byte): nat {
    if v.b7 then 8 else if v.b6 then 7 else if v.b5 then 6 else if v.b4 then 5
    else if v.b3 then 4 else if v.b2 then 3 else if v.b1 then 2 else if v.b0 then 1 else 0
  }

  function Half(v: Byte): (h: Byte)
    ensures v != ZERO ==> Length(h) < Length(v)
  {
    Byte(false, v.b7, v.b6, v.b5, v.b4, v.b3, v.b2, v.b1)
  }

  // The schoolbook product of two polynomials reduced by 0x11D, one bit of `a` at a time:
  //   a * b == if a == 0 then 0 else (if a is odd then b else 0) + (a / x) * (b * x).
  // It is one recurrence; Multiply, FirstBits and LowestBit only hand it on, so that a proof that
  // meets a product does not expand it down to its bits unasked.
  function Multiply(a: Byte, b: Byte): Byte
    decreases Length(a), 2
  {
    FirstBits(a, b)
  }

  function FirstBits(a: Byte, b: Byte): Byte
    decreases Length(a), 1
  {
    if a == ZERO then ZERO else LowestBit(a, b)
  }

  function LowestBit(a: Byte, b: Byte): Byte
    requires a != ZERO
    decreases Length(a), 0
  {
    Xor(if IsOdd(a) then b else ZERO, Multiply(Half(a), Double(b)))
  }

  // The powers of x.
  function Alpha(n: nat): Byte {
    if n == 0 then ONE else Double(Alpha(n - 1))
  }

  // Multiplication by x, n times over.
  function DoubleTimes(v: Byte, n: nat): Byte {
    if n == 0 then v else Double(DoubleTimes(v, n - 1))
  }

  // ----- the product is bilinear and commutes with doubling

  lemma DoubleXor(a: Byte, b: Byte)
    ensures Double(Xor(a, b)) == Xor(Double(a), Double(b))
  {}

  lemma HalfXor(a: Byte, b: Byte)
    ensures Half(Xor(a, b)) == Xor(Half(a), Half(b))
    ensures IsOdd(Xor(a, b)) <==> IsOdd(a) != IsOdd(b)
  {}

  lemma ZeroHalves()
    ensures Double(ZERO) == ZERO && Half(ZERO) == ZERO && !IsOdd(ZERO)
  {}

  lemma MultiplyNothing(b: Byte)
    ensures Multiply(ZERO, b) == ZERO
  {
    assert Multiply(ZERO, b) == FirstBits(ZERO, b);
  }

  lemma MultiplySomething(a: Byte, b: Byte)
    requires a != ZERO
    ensures Multiply(a, b) == Xor(if IsOdd(a) then b else ZERO, Multiply(Half(a), Double(b)))
  {
    hide Xor, IsOdd, Half, Double;
    assert Multiply(a, b) == FirstBits(a, b);
    assert FirstBits(a, b) == LowestBit(a, b);
  }

  // The defining step also holds when no bit is left.
  lemma MultiplyStep(a: Byte, b: Byte)
    ensures Multiply(a, b) == Xor(if IsOdd(a) then b else ZERO, Multiply(Half(a), Double(b)))
  {
    hide *;
    ZeroHalves();
    XorZero(ZERO);
    MultiplyNothing(b);
    MultiplyNothing(Double(b));
    if a != ZERO {
      MultiplySomething(a, b);
    }
  }

  lemma {:induction false} MultiplyXorLeft(a: Byte, b: Byte, c: Byte)
    ensures Multiply(Xor(a, b), c) == Xor(Multiply(a, c), Multiply(b, c))
    decreases Length(a), Length(b)
  {
    hide *;
    XorZero(c);
    XorZero(ZERO);
    MultiplyNothing(c);
    if a != ZERO || b != ZERO {
      HalfXor(a, b);
      ZeroHalves();
      MultiplyXorLeft(Half(a), Half(b), Double(c));
      MultiplyStep(a, c);
      MultiplyStep(b, c);
      MultiplyStep(Xor(a, b), c);
      XorRegroup(if IsOdd(a) then c else ZERO, Multiply(Half(a), Double(c)),
                 if IsOdd(b) then c else ZERO, Multiply(Half(b), Double(c)));
    }
  }

  lemma {:induction false} MultiplyXorRight(a: Byte, b: Byte, c: Byte)
    ensures Multiply(a, Xor(b, c)) == Xor(Multiply(a, b), Multiply(a, c))
    decreases Length(a)
  {
    hide *;
    XorZero(ZERO);
    MultiplyNothing(b);
    MultiplyNothing(c);
    MultiplyNothing(Xor(b, c));
    if a != ZERO {
      MultiplyXorRight(Half(a), Double(b), Double(c));
      DoubleXor(b, c);
      MultiplyStep(a, b);
      MultiplyStep(a, c);
      MultiplyStep(a, Xor(b, c));
      XorRegroup(if IsOdd(a) then b else ZERO, Multiply(Half(a), Double(b)),
                 if IsOdd(a) then c else ZERO, Multiply(Half(a), Double(c)));
    }
  }

  lemma {:induction false} MultiplyDoubleRight(a: Byte, b: Byte)
    ensures Multiply(a, Double(b)) == Double(Multiply(a, b))
    decreases Length(a)
  {
    hide *;
    ZeroHalves();
    MultiplyNothing(b);
    MultiplyNothing(Double(b));
    if a != ZERO {
      MultiplyDoubleRight(Half(a), Double(b));
      MultiplyStep(a, b);
      MultiplyStep(a, Double(b));
      DoubleXor(if IsOdd(a) then b else ZERO, Multiply(Half(a), Double(b)));
    }
  }

  lemma {:induction false} MultiplyZero(b: Byte)
    ensures Multiply(ZERO, b) == ZERO && Multiply(b, ZERO) == ZERO
    decreases Length(b)
  {
    hide *;
    ZeroHalves();
    XorZero(ZERO);
    MultiplyNothing(b);
    if b != ZERO {
      MultiplyZero(Half(b));
      MultiplyStep(b, ZERO);
    }
  }

  lemma HalfOne()
    ensures Half(ONE) == ZERO && IsOdd(ONE)
  {}

  lemma MultiplyOne(b: Byte)
    ensures Multiply(ONE, b) == b
  {
    hide *;
    HalfOne();
    MultiplyStep(ONE, b);
    MultiplyNothing(Double(b));
    XorZero(b);
  }

  // A byte without its top bit.
  function Low(v: Byte): Byte {
    v.(b7 := false)
  }

  const TOP := Byte(true, false, false, false, false, false, false, false)

  lemma DoubleLow(a: Byte)
    ensures !IsOdd(Double(Low(a))) && Half(Double(Low(a))) == Low(a)
    ensures a != Low(a) ==> a == Xor(Low(a), TOP) && Double(a) == Xor(Double(Low(a)), REDUCTION)
  {}

  lemma MultiplyDoubleLeft(a: Byte, b: Byte)
    ensures Multiply(Double(a), b) == Double(Multiply(a, b))
  {
    hide *;
    var low := Low(a);
    DoubleLow(a);
    MultiplyStep(Double(low), b);
    MultiplyDoubleRight(low, b);
    XorZero(Multiply(low, Double(b)));
    if a != low {
      MultiplyXorLeft(low, TOP, b);
      MultiplyXorLeft(Double(low), REDUCTION, b);
      MultiplyTop(b);
      DoubleXor(Multiply(low, b), Multiply(TOP, b));
    }
  }

  // One step of a product by a byte whose half is known.
  lemma MultiplyKnown(a: Byte, half: Byte, b: Byte)
    requires Half(a) == half
    ensures IsOdd(a) ==> Multiply(a, b) == Xor(b, Multiply(half, Double(b)))
    ensures !IsOdd(a) ==> Multiply(a, b) == Multiply(half, Double(b))
  {
    hide *;
    MultiplyStep(a, b);
    XorZero(Multiply(half, Double(b)));
  }

  // The single bits below the top one, and what is left of 0x1D as it is shifted out.
  function Unit(k: nat): Byte
    requires k < 8
  {
    Byte(k == 7, k == 6, k == 5, k == 4, k == 3, k == 2, k == 1, k == 0)
  }

  lemma UnitHalves(k: nat)
    requires 0 < k < 8
    ensures Half(Unit(k)) == Unit(k - 1) && !IsOdd(Unit(k))
  {}

  lemma {:induction false} MultiplyUnit(k: nat, b: Byte)
    requires k < 8
    ensures Multiply(Unit(k), b) == DoubleTimes(b, k)
  {
    if k == 0 {
      MultiplyOne(b);
    } else {
      MultiplyUnit(k - 1, Double(b));
      UnitHalves(k);
      DoubleTimesShift(b, k - 1);
      hide Double, Unit, Multiply, Half, IsOdd;
      MultiplyKnown(Unit(k), Unit(k - 1), b);
    }
  }

  lemma {:induction false} DoubleTimesShift(b: Byte, n: nat)
    ensures DoubleTimes(Double(b), n) == Double(DoubleTimes(b, n))
  {
    hide Double;
    if n > 0 {
      DoubleTimesShift(b, n - 1);
    }
  }

  lemma ReductionBits()
    ensures REDUCTION == Xor(Unit(0), Xor(Unit(2), Xor(Unit(3), Unit(4)))) && TOP == Unit(7)
  {}

  // x^8 is 0x1D, the primitive polynomial without its leading term.
  lemma MultiplyTop(b: Byte)
    ensures Multiply(REDUCTION, b) == Double(Multiply(TOP, b))
  {
    hide *;
    ReductionBits();
    MultiplyXorLeft(Unit(0), Xor(Unit(2), Xor(Unit(3), Unit(4))), b);
    MultiplyXorLeft(Unit(2), Xor(Unit(3), Unit(4)), b);
    MultiplyXorLeft(Unit(3), Unit(4), b);
    MultiplyUnit(0, b);
    MultiplyUnit(2, b);
    MultiplyUnit(3, b);
    MultiplyUnit(4, b);
    MultiplyUnit(7, b);
    FoldedOverflow(b);
  }

  // Multiplication by x^4, bit by bit.
  lemma DoubleFourTimes(v: Byte)
    ensures Double(Double(Double(Double(v))))
         == Byte(v.b3 != v.b7, (v.b2 != v.b6) != v.b7, (v.b1 != v.b5) != (v.b6 != v.b7), (v.b0 != v.b4) != (v.b5 != v.b6),
                 (v.b4 != v.b5) != v.b7, v.b4 != v.b6, v.b5, v.b4)
  {}

  // x^8 = 1 + x^2 + x^3 + x^4 as an action on bytes.
  lemma DoubleEightTimes(b: Byte)
    ensures Double(Double(Double(Double(Double(Double(Double(Double(b))))))))
         == Xor(b, Xor(Double(Double(b)), Xor(Double(Double(Double(b))), Double(Double(Double(Double(b)))))))
  {
    var b4 := Double(Double(Double(Double(b))));
    DoubleFourTimes(b);
    DoubleFourTimes(b4);
  }

  lemma DoubleTimesStep(v: Byte, n: nat)
    ensures DoubleTimes(v, 0) == v && DoubleTimes(v, n + 1) == Double(DoubleTimes(v, n))
  {}

  lemma FoldedOverflow(b: Byte)
    ensures Double(DoubleTimes(b, 7))
         == Xor(DoubleTimes(b, 0), Xor(DoubleTimes(b, 2), Xor(DoubleTimes(b, 3), DoubleTimes(b, 4))))
  {
    hide *;
    DoubleTimesStep(b, 0);
    DoubleTimesStep(b, 1);
    DoubleTimesStep(b, 2);
    DoubleTimesStep(b, 3);
    DoubleTimesStep(b, 4);
    DoubleTimesStep(b, 5);
    DoubleTimesStep(b, 6);
    DoubleEightTimes(b);
  }

  lemma {:induction false} MultiplyAlpha(n: nat, b: Byte)
    ensures Multiply(Alpha(n), b) == DoubleTimes(b, n)
  {
    hide Xor, Double, Multiply;
    if n == 0 {
      MultiplyOne(b);
    } else {
      MultiplyAlpha(n - 1, b);
      MultiplyDoubleLeft(Alpha(n - 1), b);
    }
  }

  lemma {:induction false} DoubleTimesAlpha(m: nat, n: nat)
    ensures DoubleTimes(Alpha(m), n) == Alpha(m + n)
  {
    hide Double;
    if n > 0 {
      DoubleTimesAlpha(m, n - 1);
    }
  }

  lemma AlphaSum(m: nat, n: nat)
    ensures Multiply(Alpha(m), Alpha(n)) == Alpha(m + n)
  {
    hide *;
    MultiplyAlpha(m, Alpha(n));
    DoubleTimesAlpha(n, m);
  }

  // ----- x has order exactly 255

  // Squaring is linear over GF(2): the bit of x^k moves to x^2k, reduced.
  function Square(v: Byte): Byte {
    Byte(v.b6, (v.b3 != v.b5) != v.b6, v.b5, (v.b2 != v.b4) != (v.b5 != v.b7),
         v.b4 != v.b6, (v.b1 != v.b4) != (v.b5 != v.b6), v.b7, (v.b0 != v.b4) != (v.b6 != v.b7))
  }

  lemma SquareDouble(v: Byte)
    ensures Square(Double(v)) == Double(Double(Square(v)))
  {}

  lemma {:induction false} SquareAlpha(n: nat)
    ensures Square(Alpha(n)) == Alpha(2 * n)
  {
    hide Square, Double;
    if n == 0 {
      SquareOne();
    } else {
      SquareAlpha(n - 1);
      SquareDouble(Alpha(n - 1));
      AlphaStep(2 * n - 2);
      AlphaStep(2 * n - 1);
    }
  }

  lemma SquareOne()
    ensures Square(ONE) == ONE
  {}

  // From x^n to x^(2n+1).
  function SquareAndDouble(v: Byte): Byte {
    Double(Square(v))
  }

  lemma OddPower(n: nat, v: Byte)
    requires Alpha(n) == v
    ensures Alpha(2 * n + 1) == SquareAndDouble(v)
  {
    hide Square, Double, Alpha;
    SquareAlpha(n);
    AlphaStep(2 * n);
  }

  lemma EvenPower(n: nat, v: Byte)
    requires Alpha(n) == v
    ensures Alpha(2 * n) == Square(v)
  {
    hide *;
    SquareAlpha(n);
  }

  // Some powers of x by their bits.
  const POWER_5 := Byte(false, false, true, false, false, false, false, false)
  const POWER_6 := Byte(false, true, false, false, false, false, false, false)
  const POWER_7 := Byte(true, false, false, false, false, false, false, false)
  const POWER_10 := Byte(false, true, true, true, false, true, false, false)
  const POWER_12 := Byte(true, true, false, false, true, true, false, true)
  const POWER_15 := Byte(false, false, true, false, false, true, true, false)
  const POWER_21 := Byte(false, true, true, true, false, true, false, true)
  const POWER_25 := Byte(false, false, false, false, false, false, true, true)
  const POWER_31 := Byte(true, true, false, false, false, false, false, false)
  const POWER_42 := Byte(true, false, true, true, false, true, false, true)
  const POWER_51 := Byte(false, false, false, false, true, false, true, false)
  const POWER_63 := Byte(true, false, true, false, false, false, false, true)
  const POWER_85 := Byte(true, true, false, true, false, true, true, false)
  const POWER_127 := Byte(true, true, false, false, true, true, false, false)

  // The chains 7, 15, 31, 63, 127, 255 and 6, 12, 25, 51 and 5, 10, 21, 42, 85.
  lemma ChainTo255()
    ensures SquareAndDouble(POWER_7) == POWER_15 && SquareAndDouble(POWER_15) == POWER_31
    ensures SquareAndDouble(POWER_31) == POWER_63 && SquareAndDouble(POWER_63) == POWER_127
    ensures SquareAndDouble(POWER_127) == ONE
  {}

  lemma ChainTo51()
    ensures Square(POWER_6) == POWER_12
    ensures SquareAndDouble(POWER_12) == POWER_25 && SquareAndDouble(POWER_25) == POWER_51
  {}

  lemma ChainTo85()
    ensures Square(POWER_5) == POWER_10 && Square(POWER_21) == POWER_42
    ensures SquareAndDouble(POWER_10) == POWER_21 && SquareAndDouble(POWER_42) == POWER_85
  {}

  lemma ChainStarts()
    ensures Alpha(5) == POWER_5 && Alpha(6) == POWER_6 && Alpha(7) == POWER_7
  {}

  lemma LandmarksDiffer()
    ensures POWER_15 != ONE && POWER_51 != ONE && POWER_85 != ONE
  {}

  lemma Landmarks(n: nat)
    ensures n == 15 || n == 51 || n == 85 ==> Alpha(n) != ONE
    ensures n == 255 ==> Alpha(n) == ONE
  {
    hide *;
    ChainStarts();
    LandmarksDiffer();
    ChainTo255();
    OddPower(7, POWER_7);
    OddPower(15, POWER_15);
    OddPower(31, POWER_31);
    OddPower(63, POWER_63);
    OddPower(127, POWER_127);
    ChainTo51();
    EvenPower(6, POWER_6);
    OddPower(12, POWER_12);
    OddPower(25, POWER_25);
    ChainTo85();
    EvenPower(5, POWER_5);
    OddPower(10, POWER_10);
    EvenPower(21, POWER_21);
    OddPower(42, POWER_42);
  }

  lemma AlphaPeriod(n: nat)
    ensures Alpha(n + 255) == Alpha(n)
  {
    hide *;
    Landmarks(255);
    AlphaSum(255, n);
    MultiplyOne(Alpha(n));
  }

  lemma {:induction false} AlphaPeriods(n: nat, k: nat)
    ensures Alpha(n + 255 * k) == Alpha(n)
  {
    hide *;
    if k > 0 {
      AlphaPeriods(n, k - 1);
      AlphaPeriod(n + 255 * (k - 1));
    }
  }

  lemma {:induction false} OneToThe(n: nat, k: nat)
    requires Alpha(n) == ONE
    ensures Alpha(n * k) == ONE
  {
    if k > 0 {
      hide *;
      OneToThe(n, k - 1);
      AlphaSum(n * (k - 1), n);
      MultiplyOne(ONE);
      assert n * k == n * (k - 1) + n;
    } else {
      assert n * k == 0;
    }
  }

  // If x^n is 1 and n is invertible modulo one prime factor of 255, the power with the
  // complementary exponent is 1 too.
  lemma SmallerOrder(n: nat, cofactor: nat, s: nat, periods: nat)
    requires Alpha(n) == ONE
    requires n * (cofactor * s) == cofactor + 255 * periods
    ensures Alpha(cofactor) == ONE
  {
    hide *;
    OneToThe(n, cofactor * s);
    AlphaPeriods(cofactor, periods);
  }

  lemma InverseModulo3(n: nat) returns (s: nat, q: nat)
    requires n % 3 != 0
    ensures n * s == 1 + 3 * q
  {
    s := n % 3;
    q := (n * s - 1) / 3;
  }

  lemma InverseModulo5(n: nat) returns (s: nat, q: nat)
    requires n % 5 != 0
    ensures n * s == 1 + 5 * q
  {
    var r := n % 5;
    s := if r == 1 then 1 else if r == 2 then 3 else if r == 3 then 2 else 4;
    q := (n * s - 1) / 5;
  }

  lemma InverseModulo17(n: nat) returns (s: nat, q: nat)
    requires n % 17 != 0
    ensures n * s == 1 + 17 * q
  {
    var r, d := n % 17, n / 17;
    var t := r * r % 17;
    var inverses := [0, 1, 9, 6, 13, 7, 3, 5, 15, 2, 12, 14, 10, 4, 11, 8, 16];
    s := inverses[r];
    assert r * s % 17 == 1;
    q := d * s + r * s / 17;
  }

  lemma PeriodDivides85(n: nat)
    requires Alpha(n) == ONE && n % 3 != 0
    ensures Alpha(85) == ONE
  {
    hide *;
    var s, q := InverseModulo3(n);
    assert n * (85 * s) == 85 * (n * s);
    SmallerOrder(n, 85, s, q);
  }

  lemma PeriodDivides51(n: nat)
    requires Alpha(n) == ONE && n % 5 != 0
    ensures Alpha(51) == ONE
  {
    hide *;
    var s, q := InverseModulo5(n);
    assert n * (51 * s) == 51 * (n * s);
    SmallerOrder(n, 51, s, q);
  }

  lemma PeriodDivides15(n: nat)
    requires Alpha(n) == ONE && n % 17 != 0
    ensures Alpha(15) == ONE
  {
    hide *;
    var s, q := InverseModulo17(n);
    assert n * (15 * s) == 15 * (n * s);
    SmallerOrder(n, 15, s, q);
  }

  lemma CommonMultiple(n: int, a: int, b: int, c: int)
    requires n == 3 * a && n == 5 * b && n == 17 * c
    ensures n == 255 * (8 * c - 7 * (2 * b - a))
  {}

  lemma NotAMultiple(n: int, k: int)
    requires 0 < n < 255
    ensures n != 255 * k
  {}

  lemma NoFactorMissing(n: nat)
    requires 0 < n < 255
    ensures n % 3 != 0 || n % 5 != 0 || n % 17 != 0
  {
    var a, b, c := n / 3, n / 5, n / 17;
    if n == 3 * a && n == 5 * b && n == 17 * c {
      CommonMultiple(n, a, b, c);
      NotAMultiple(n, 8 * c - 7 * (2 * b - a));
    }
  }

  // 255 = 3 * 5 * 17, so a smaller period would divide 85, 51 or 15.
  lemma PowersBelow255(n: nat)
    requires 0 < n < 255
    ensures Alpha(n) != ONE
  {
    hide *;
    if Alpha(n) == ONE {
      if n % 3 != 0 {
        PeriodDivides85(n);
        Landmarks(85);
      } else if n % 5 != 0 {
        PeriodDivides51(n);
        Landmarks(51);
      } else {
        NoFactorMissing(n);
        PeriodDivides15(n);
        Landmarks(15);
      }
    }
  }

  lemma DoubleInjective(a: Byte, b: Byte)
    requires Double(a) == Double(b)
    ensures a == b
  {}

  lemma {:induction false} AlphaNonzero(n: nat)
    ensures Alpha(n) != ZERO
  {
    if n > 0 {
      AlphaNonzero(n - 1);
      ZeroHalves();
      if Double(Alpha(n - 1)) == Double(ZERO) {
        DoubleInjective(Alpha(n - 1), ZERO);
      }
    }
  }

  // Distinct exponents below 255 give distinct powers.
  lemma {:induction false} AlphaInjective(m: nat, n: nat)
    requires m < n < 255
    ensures Alpha(m) != Alpha(n)
  {
    hide Double;
    if m == 0 {
      PowersBelow255(n);
    } else if Alpha(m) == Alpha(n) {
      DoubleInjective(Alpha(m - 1), Alpha(n - 1));
      AlphaInjective(m - 1, n - 1);
    }
  }

  // ----- every nonzero byte is a power of x

  function Numbers(n: nat): (s: set<nat>)
    ensures |s| == n
    ensures forall v :: v in s <==> 1 <= v <= n
  {
    if n == 0 then {} else Numbers(n - 1) + {n}
  }

  function PowerValues(n: nat): set<nat> {
    if n == 0 then {} else PowerValues(n - 1) + {Value(Alpha(n - 1))}
  }

  lemma {:induction false} PowerValuesMembers(n: nat, v: nat)
    requires v in PowerValues(n)
    ensures exists k: nat :: k < n && Value(Alpha(k)) == v
  {
    hide Value, Alpha;
    if v != Value(Alpha(n - 1)) {
      PowerValuesMembers(n - 1, v);
    }
  }

  lemma {:induction false} PowerValuesSize(n: nat)
    requires n <= 255
    ensures |PowerValues(n)| == n
    ensures forall v :: v in PowerValues(n) ==> 1 <= v <= 255
  {
    hide Value, Alpha;
    if n > 0 {
      PowerValuesSize(n - 1);
      var v := Value(Alpha(n - 1));
      AlphaNonzero(n - 1);
      ValueInjective(Alpha(n - 1), ZERO);
      if v in PowerValues(n - 1) {
        PowerValuesMembers(n - 1, v);
        var k: nat :| k < n - 1 && Value(Alpha(k)) == v;
        ValueInjective(Alpha(k), Alpha(n - 1));
        AlphaInjective(k, n - 1);
      }
    }
  }

  lemma SubsetOfSameSize(small: set<nat>, large: set<nat>)
    requires small <= large && |small| == |large|
    ensures small == large
  {
    var missing := large - small;
    assert large == small + missing;
    assert |missing| == 0;
  }

  lemma PowersCover(n: nat, b: Byte)
    requires n == 255 && b != ZERO
    ensures exists k: nat :: k < n && Alpha(k) == b
  {
    PowerValuesSize(n);
    SubsetOfSameSize(PowerValues(n), Numbers(n));
    hide *;
    ValueInjective(b, ZERO);
    PowerValuesMembers(n, Value(b));
    var k: nat :| k < n && Value(Alpha(k)) == Value(b);
    ValueInjective(Alpha(k), b);
  }

  // The discrete logarithm.
  ghost function Log(b: Byte): (k: nat)
    requires b != ZERO
    ensures k < 255 && Alpha(k) == b
  {
    PowersCover(255, b);
    var k: nat :| k < 255 && Alpha(k) == b;
    k
  }

  // ----- the field laws

  lemma MultiplyCommutes(a: Byte, b: Byte)
    ensures Multiply(a, b) == Multiply(b, a)
  {
    hide *;
    MultiplyZero(a);
    MultiplyZero(b);
    if a != ZERO && b != ZERO {
      AlphaSum(Log(a), Log(b));
      AlphaSum(Log(b), Log(a));
    }
  }

  lemma PowersAssociate(i: nat, j: nat, k: nat)
    ensures Multiply(Multiply(Alpha(i), Alpha(j)), Alpha(k)) == Multiply(Alpha(i), Multiply(Alpha(j), Alpha(k)))
  {
    hide *;
    AlphaSum(i, j);
    AlphaSum(j, k);
    AlphaSum(i + j, k);
    AlphaSum(i, j + k);
    assert i + (j + k) == (i + j) + k;
  }

  lemma MultiplyAssociates(a: Byte, b: Byte, c: Byte)
    ensures Multiply(Multiply(a, b), c) == Multiply(a, Multiply(b, c))
  {
    hide *;
    if a == ZERO {
      MultiplyZero(b);
      MultiplyZero(c);
      MultiplyZero(Multiply(b, c));
    } else if b == ZERO {
      MultiplyZero(a);
      MultiplyZero(c);
    } else if c == ZERO {
      MultiplyZero(a);
      MultiplyZero(b);
      MultiplyZero(Multiply(a, b));
    } else {
      PowersAssociate(Log(a), Log(b), Log(c));
    }
  }

  lemma MultiplySwap(a: Byte, b: Byte, c: Byte)
    ensures Multiply(a, Multiply(b, c)) == Multiply(b, Multiply(a, c))
  {
    hide *;
    MultiplyAssociates(a, b, c);
    MultiplyAssociates(b, a, c);
    MultiplyCommutes(a, b);
  }

  lemma NoZeroDivisors(a: Byte, b: Byte)
    ensures Multiply(a, b) == ZERO <==> a == ZERO || b == ZERO
  {
    hide *;
    MultiplyZero(a);
    MultiplyZero(b);
    if a != ZERO && b != ZERO {
      AlphaSum(Log(a), Log(b));
      AlphaNonzero(Log(a) + Log(b));
    }
  }

  // ----- the tables of the source

  ghost predicate IsExpTable(exp: seq<Byte>) {
    |exp| == 512 && forall k: nat :: k < 512 ==> exp[k] == Alpha(k)
  }

  ghost predicate IsLogTable(log: seq<nat>) {
    |log| == 256 && forall k: nat :: k < 255 ==> log[Value(Alpha(k))] == k
  }

  // The source's integer after the shift: bit 8, and the byte below it.
  datatype Wide = Wide(overflow: bool, low: Byte)

  // 0x11D
  const PRIMITIVE_POLYNOMIAL := Wide(true, REDUCTION)

  // One step of the source's integer: the shift, then the conditional reduction.
  function ShiftAndReduce(v: Byte): Wide {
    var wide := Wide(v.b7, Shift(v));
    if wide.overflow
    then Wide(wide.overflow != PRIMITIVE_POLYNOMIAL.overflow, Xor(wide.low, PRIMITIVE_POLYNOMIAL.low))
    else wide
  }

  lemma ReductionFitsByte(v: Byte)
    ensures ShiftAndReduce(v) == Wide(false, Double(v))
  {}

  lemma ValuesDiffer(m: nat, n: nat)
    requires m < n < 255
    ensures Value(Alpha(m)) != Value(Alpha(n))
  {
    hide *;
    AlphaInjective(m, n);
    ValueInjective(Alpha(m), Alpha(n));
  }

  lemma AlphaStep(n: nat)
    ensures Alpha(0) == ONE && Alpha(n + 1) == Double(Alpha(n))
  {}

  method NextPower(value: Byte) returns (next: Byte)
    ensures forall n: nat :: value == Alpha(n) ==> next == Alpha(n + 1)
  {
    forall n: nat ensures Alpha(n + 1) == Double(Alpha(n)) {
      AlphaStep(n);
    }
    ReductionFitsByte(value);
    next := ShiftAndReduce(value).low;
  }

  method FieldTables() returns (exp: array<Byte>, log: array<nat>)
    ensures fresh(exp) && fresh(log)
    ensures IsExpTable(exp[..]) && IsLogTable(log[..])
  {
    hide Alpha, Value;
    AlphaStep(0);
    exp := new Byte[512](_ => ZERO);
    log := new nat[256](_ => 0);
    var value := ONE;
    for power := 0 to 255
      invariant value == Alpha(power)
      invariant forall k: nat :: k < power ==> exp[k] == Alpha(k)
      invariant forall k: nat :: k < power ==> log[Value(Alpha(k))] == k
    {
      exp[power] := value;
      forall k: nat | k < power ensures Value(Alpha(k)) != Value(value) {
        ValuesDiffer(k, power);
      }
      log[Value(value)] := power;
      value := NextPower(value);
    }
    for power := 255 to 512
      invariant forall k: nat :: k < power ==> exp[k] == Alpha(k)
      invariant forall k: nat :: k < 255 ==> log[Value(Alpha(k))] == k
    {
      AlphaPeriod(power - 255);
      exp[power] := exp[power - 255];
    }
  }

  // The table product of the source is the product of polynomials modulo 0x11D.
  function MultiplyByTables(exp: seq<Byte>, log: seq<nat>, a: Byte, b: Byte): (product: Byte)
    requires IsExpTable(exp) && IsLogTable(log)
    ensures product == Multiply(a, b)
  {
    hide Multiply, Alpha, Value, Log;
    MultiplyZero(a);
    MultiplyZero(b);
    if a == ZERO || b == ZERO then ZERO
    else
      AlphaSum(Log(a), Log(b));
      exp[log[Value(a)] + log[Value(b)]]
  }
}
