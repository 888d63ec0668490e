// JSON values as Python sees them, and a codec for them.
module Json {
  import opened Wrappers
  import opened Bytes

  // A finite binary floating-point number, mantissa * 2^exponent with an odd mantissa or zero: like
  // a Python float it has an exact decimal text.
  datatype Dyadic = Dyadic(mantissa: int, exponent: int) {
    predicate Canonical() {
      if mantissa == 0 then exponent == 0 else mantissa % 2 == 1
    }
  }

  type Float = f: Dyadic | f.Canonical() witness Dyadic(0, 0)

  function Power2(n: nat): nat {
    if n == 0 then 1 else 2 * Power2(n - 1)
  }

  datatype Value = Null | Flag(b: bool) | Number(n: int) | Real(r: Float) | Text(s: string) | List(items: seq<Value>)
                 | Object(fields: map<string, Value>)

  // dict.get: None for a missing key; what is not an object has no keys.
  function Get(v: Value, name: string): Value {
    if v.Object? && name in v.fields then v.fields[name] else Null
  }

  // Python's == between a value and an int.
  predicate Equals(v: Value, n: int) {
    match v
    case Number(m) => m == n
    case Real(r) => r.exponent >= 0 && r.mantissa * Power2(r.exponent) == n
    case Flag(b) => n == if b then 1 else 0
    case _ => false
  }

  // _count: an int that is not a bool and not negative.
  predicate IsCount(v: Value) {
    v.Number? && v.n >= 0
  }

  predicate IsOptionalText(v: Value) {
    v.Null? || v.Text?
  }

  predicate IsScalar(v: Value) {
    !v.List? && !v.Object?
  }

  predicate AllTexts(items: seq<Value>) {
    forall i :: 0 <= i < |items| ==> items[i].Text?
  }

  // The separators of a list that is framed record by record.
  const OPEN: nat := 0x5B
  const COMMA: nat := 0x2C
  const CLOSE: nat := 0x5D

  // "[", the items joined by ",", "]".
  function ListBytes(items: seq<seq<Byte>>): seq<Byte> {
    [ByteOf(OPEN)] + Inner(items) + [ByteOf(CLOSE)]
  }

  function Inner(items: seq<seq<Byte>>): seq<Byte> {
    if |items| == 0 then []
    else Inner(items[..|items| - 1]) + (if |items| == 1 then [] else [ByteOf(COMMA)]) + items[|items| - 1]
  }

  datatype Codec = Codec(encode: Value -> seq<Byte>, parse: seq<Byte> -> Option<Value>) {
    function Encoded(items: seq<Value>): (texts: seq<seq<Byte>>)
      ensures |texts| == |items|
      ensures forall i :: 0 <= i < |items| ==> texts[i] == encode(items[i])
    {
      seq(|items|, i requires 0 <= i < |items| => encode(items[i]))
    }

    // What is written parses to itself, a list also when it is put together item by item.
    ghost predicate Sound() {
      && (forall v :: parse(encode(v)) == Some(v))
      && (forall items :: parse(ListBytes(Encoded(items))) == Some(List(items)))
    }
  }
}
