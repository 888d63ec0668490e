// Bytes, their numeric values and the big-endian fields of the container's fixed records.
module Bytes {

  // The eight bits of a byte, most significant first.
  datatype Byte = Byte(b7: bool, b6: bool, b5: bool, b4: bool, b3: bool, b2: bool, b1: bool, b0: bool)

  const ZERO := Byte(false, false, false, false, false, false, false, false)

  function Xor(a: Byte, b: Byte): Byte {
    Byte(a.b7 != b.b7, a.b6 != b.b6, a.b5 != b.b5, a.b4 != b.b4,
         a.b3 != b.b3, a.b2 != b.b2, a.b1 != b.b1, a.b0 != b.b0)
  }

  // The number that four binary digits spell.
  function Nibble(p: bool, q: bool, r: bool, s: bool): (v: nat)
    ensures v < 16
  {
    (if p then 8 else 0) + (if q then 4 else 0) + (if r then 2 else 0) + if s then 1 else 0
  }

  lemma NibbleOf(v: nat)
    requires v < 16
    ensures Nibble(v / 8 == 1, v / 4 % 2 == 1, v / 2 % 2 == 1, v % 2 == 1) == v
  {}

  lemma NibbleInjective(p: bool, q: bool, r: bool, s: bool, p': bool, q': bool, r': bool, s': bool)
    requires Nibble(p, q, r, s) == Nibble(p', q', r', s')
    ensures p == p' && q == q' && r == r' && s == s'
  {}

  function Value(b: Byte): (v: nat)
    ensures v < 256
  {
    16 * Nibble(b.b7, b.b6, b.b5, b.b4) + Nibble(b.b3, b.b2, b.b1, b.b0)
  }

  function ByteOf(v: nat): (b: Byte)
    requires v < 256
    ensures Value(b) == v
  {
    hide Nibble;
    var high, low := v / 16, v % 16;
    NibbleOf(high);
    NibbleOf(low);
    Byte(high / 8 == 1, high / 4 % 2 == 1, high / 2 % 2 == 1, high % 2 == 1,
         low / 8 == 1, low / 4 % 2 == 1, low / 2 % 2 == 1, low % 2 == 1)
  }

  lemma SameValue(a: Byte, b: Byte)
    requires Value(a) == Value(b)
    ensures a == b
  {
    hide Nibble;
    NibbleInjective(a.b7, a.b6, a.b5, a.b4, b.b7, b.b6, b.b5, b.b4);
    NibbleInjective(a.b3, a.b2, a.b1, a.b0, b.b3, b.b2, b.b1, b.b0);
  }

  lemma ZeroValue()
    ensures Value(ZERO) == 0
  {}

  lemma ValueInjective(a: Byte, b: Byte)
    ensures Value(a) == Value(b) <==> a == b
    ensures Value(a) == 0 <==> a == ZERO
  {
    hide *;
    ZeroValue();
    if Value(a) == Value(b) {
      SameValue(a, b);
    }
    if Value(a) == 0 {
      SameValue(a, ZERO);
    }
  }

  lemma ByteOfValue(b: Byte)
    ensures ByteOf(Value(b)) == b
  {
    hide *;
    ValueInjective(ByteOf(Value(b)), b);
  }

  // ----- exclusive or is a group in which every byte is its own inverse

  lemma XorRegroup(a: Byte, b: Byte, c: Byte, d: Byte)
    ensures Xor(Xor(a, b), Xor(c, d)) == Xor(Xor(a, c), Xor(b, d))
  {}

  lemma XorAssociates(a: Byte, b: Byte, c: Byte)
    ensures Xor(Xor(a, b), c) == Xor(a, Xor(b, c))
  {}

  lemma XorCommutes(a: Byte, b: Byte)
    ensures Xor(a, b) == Xor(b, a)
  {}

  lemma XorZero(a: Byte)
    ensures Xor(a, ZERO) == a && Xor(ZERO, a) == a && Xor(a, a) == ZERO
  {}

  lemma XorCancels(a: Byte, b: Byte)
    ensures Xor(a, Xor(a, b)) == b && Xor(Xor(b, a), a) == b
    ensures Xor(a, b) == ZERO <==> a == b
  {
    XorAssociates(a, a, b);
    XorAssociates(b, a, a);
    XorZero(a);
    XorZero(b);
    hide Xor;
  }

  function Zeros(n: nat): (z: seq<Byte>)
    ensures |z| == n
    ensures forall i :: 0 <= i < n ==> z[i] == ZERO
  {
    if n == 0 then [] else [ZERO] + Zeros(n - 1)
  }

  // The bytes of an ASCII text.
  function Ascii(text: string): (bytes: seq<Byte>)
    requires forall i :: 0 <= i < |text| ==> text[i] as nat < 128
    ensures |bytes| == |text|
  {
    seq(|text|, i requires 0 <= i < |text| && text[i] as nat < 128 => ByteOf(text[i] as nat))
  }

  // ----- big-endian fields

  function Power256(width: nat): nat {
    if width == 0 then 1 else 256 * Power256(width - 1)
  }

  // The low `width` bytes of a number, most significant first.
  function BigEndian(n: nat, width: nat): (bytes: seq<Byte>)
    ensures |bytes| == width
  {
    if width == 0 then [] else BigEndian(n / 256, width - 1) + [ByteOf(n % 256)]
  }

  function FromBigEndian(bytes: seq<Byte>): nat {
    if |bytes| == 0 then 0 else 256 * FromBigEndian(bytes[..|bytes| - 1]) + Value(bytes[|bytes| - 1])
  }

  lemma {:induction false} FieldRoundTrip(n: nat, width: nat)
    requires n < Power256(width)
    ensures FromBigEndian(BigEndian(n, width)) == n
  {
    hide ByteOf, Value;
    if width > 0 {
      FieldRoundTrip(n / 256, width - 1);
      var bytes := BigEndian(n, width);
      assert bytes[..|bytes| - 1] == BigEndian(n / 256, width - 1);
    }
  }

  lemma {:induction false} FieldRoundTripBack(bytes: seq<Byte>)
    ensures BigEndian(FromBigEndian(bytes), |bytes|) == bytes
    ensures FromBigEndian(bytes) < Power256(|bytes|)
  {
    hide ByteOf, Value;
    if |bytes| > 0 {
      FieldRoundTripBack(bytes[..|bytes| - 1]);
      ByteOfValue(bytes[|bytes| - 1]);
    }
  }
}
