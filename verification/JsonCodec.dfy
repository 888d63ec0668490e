// A codec that meets Json.Codec.Sound, so that what is proved of every sound codec is proved of some:
// no text is the beginning of another, and a list is written as the payload writer joins it.
module JsonCodec {
  import opened Wrappers
  import opened Bytes
  import opened Json

  // ----- numbers and texts

  function Unary(n: nat): seq<Byte> {
    if n == 0 then [ByteOf(0)] else [ByteOf(1)] + Unary(n - 1)
  }

  function Signed(n: int): seq<Byte> {
    if n < 0 then [ByteOf(0)] + Unary(-n) else [ByteOf(1)] + Unary(n)
  }

  function Chars(s: string): seq<Byte> {
    if |s| == 0 then [ByteOf(0)] else [ByteOf(1)] + (Unary(s[0] as int) + Chars(s[1..]))
  }

  lemma Regroup(a: seq<Byte>, b: seq<Byte>, x: seq<Byte>)
    ensures (a + b) + x == a + (b + x)
  {}

  // Two texts that begin with a number below 256 agree in it and after it.
  lemma SameHead(m: nat, s: seq<Byte>, n: nat, t: seq<Byte>)
    requires m < 256 && n < 256
    requires [ByteOf(m)] + s == [ByteOf(n)] + t
    ensures m == n && s == t
  {
    assert ([ByteOf(m)] + s)[0] == ByteOf(m) && ([ByteOf(n)] + t)[0] == ByteOf(n);
    assert Bytes.Value(ByteOf(m)) == Bytes.Value(ByteOf(n));
    assert ([ByteOf(m)] + s)[1..] == s && ([ByteOf(n)] + t)[1..] == t;
  }

  lemma {:induction false} UnaryUnique(m: nat, n: nat, x: seq<Byte>, y: seq<Byte>)
    requires Unary(m) + x == Unary(n) + y
    ensures m == n && x == y
  {
    hide ByteOf;
    var (a, s) := if m == 0 then (0, []) else (1, Unary(m - 1));
    var (b, t) := if n == 0 then (0, []) else (1, Unary(n - 1));
    Regroup([ByteOf(a)], s, x);
    Regroup([ByteOf(b)], t, y);
    assert Unary(m) == [ByteOf(a)] + s && Unary(n) == [ByteOf(b)] + t;
    SameHead(a, s + x, b, t + y);
    if m > 0 {
      UnaryUnique(m - 1, n - 1, x, y);
    } else {
      assert s + x == x && t + y == y;
    }
  }

  lemma SignedUnique(m: int, n: int, x: seq<Byte>, y: seq<Byte>)
    requires Signed(m) + x == Signed(n) + y
    ensures m == n && x == y
  {
    hide ByteOf, Unary;
    var (a, s) := if m < 0 then (0, -m) else (1, m);
    var (b, t) := if n < 0 then (0, -n) else (1, n);
    Regroup([ByteOf(a)], Unary(s), x);
    Regroup([ByteOf(b)], Unary(t), y);
    SameHead(a, Unary(s) + x, b, Unary(t) + y);
    UnaryUnique(s, t, x, y);
  }

  lemma {:induction false} CharsUnique(p: string, q: string, x: seq<Byte>, y: seq<Byte>)
    requires Chars(p) + x == Chars(q) + y
    ensures p == q && x == y
  {
    hide ByteOf, Unary;
    var (a, s) := if |p| == 0 then (0, []) else (1, Unary(p[0] as int) + Chars(p[1..]));
    var (b, t) := if |q| == 0 then (0, []) else (1, Unary(q[0] as int) + Chars(q[1..]));
    Regroup([ByteOf(a)], s, x);
    Regroup([ByteOf(b)], t, y);
    assert Chars(p) == [ByteOf(a)] + s && Chars(q) == [ByteOf(b)] + t;
    SameHead(a, s + x, b, t + y);
    if |p| > 0 {
      Regroup(Unary(p[0] as int), Chars(p[1..]), x);
      Regroup(Unary(q[0] as int), Chars(q[1..]), y);
      UnaryUnique(p[0] as int, q[0] as int, Chars(p[1..]) + x, Chars(q[1..]) + y);
      CharsUnique(p[1..], q[1..], x, y);
      assert p == [p[0]] + p[1..] && q == [q[0]] + q[1..];
    } else {
      assert s + x == x && t + y == y;
    }
  }

  // ----- values

  function Tag(v: Json.Value): (tag: nat)
    ensures tag < 256 && tag != COMMA && tag != CLOSE
  {
    match v
    case Null => 0x6E
    case Flag(_) => 0x74
    case Number(_) => 0x69
    case Real(_) => 0x66
    case Text(_) => 0x22
    case List(_) => OPEN
    case Object(_) => 0x7B
  }

  // A text of a value tells its kind by its first byte.
  ghost function Encode(v: Json.Value): seq<Byte>
    decreases v, 2
  {
    [ByteOf(Tag(v))] + Rest(v)
  }

  ghost function Rest(v: Json.Value): seq<Byte>
    decreases v, 1
  {
    match v
    case Null => []
    case Flag(b) => Unary(if b then 1 else 0)
    case Number(n) => Signed(n)
    case Real(r) => Signed(r.mantissa) + Signed(r.exponent)
    case Text(s) => Chars(s)
    case List(items) => Items(items, 0)
    case Object(fields) => Pairs(v, Listed(fields.Keys))
  }

  // The items from the i-th on and the closing bracket.
  ghost function Items(items: seq<Json.Value>, i: nat): (text: seq<Byte>)
    requires i <= |items|
    ensures |text| > 0
    decreases items, |items| - i, 1
  {
    if i == |items| then [ByteOf(CLOSE)]
    else if i == 0 then Item(items, i)
    else [ByteOf(COMMA)] + Item(items, i)
  }

  ghost function Item(items: seq<Json.Value>, i: nat): (text: seq<Byte>)
    requires i < |items|
    ensures |text| > 0
    decreases items, |items| - i, 0
  {
    Encode(items[i]) + Items(items, i + 1)
  }

  ghost function Pairs(v: Json.Value, keys: seq<string>): seq<Byte>
    requires v.Object? && forall k <- keys :: k in v.fields
    decreases v, 0, |keys|, 1
  {
    if |keys| == 0 then [ByteOf(0)] else [ByteOf(1)] + Pair(v, keys)
  }

  ghost function Pair(v: Json.Value, keys: seq<string>): seq<Byte>
    requires v.Object? && |keys| > 0 && forall k <- keys :: k in v.fields
    decreases v, 0, |keys|, 0
  {
    Chars(keys[0]) + (Encode(v.fields[keys[0]]) + Pairs(v, keys[1..]))
  }

  // The elements of a set in an order that depends on the set alone.
  ghost function Listed(s: set<string>): (elements: seq<string>)
    ensures forall x :: x in elements <==> x in s
  {
    if s == {} then [] else var x :| x in s; [x] + Listed(s - {x})
  }

  // ----- no text is the beginning of another

  lemma {:induction false} FrontUnique(v: Json.Value, w: Json.Value, x: seq<Byte>, y: seq<Byte>)
    requires Encode(v) + x == Encode(w) + y
    ensures v == w && x == y
    decreases v, 2
  {
    hide *;
    EncodeMeans(v);
    EncodeMeans(w);
    Regroup([ByteOf(Tag(v))], Rest(v), x);
    Regroup([ByteOf(Tag(w))], Rest(w), y);
    SameHead(Tag(v), Rest(v) + x, Tag(w), Rest(w) + y);
    SameKind(v, w);
    RestUnique(v, w, x, y);
  }

  lemma EncodeMeans(v: Json.Value)
    ensures Encode(v) == [ByteOf(Tag(v))] + Rest(v)
  {
    hide ByteOf, Rest, Tag;
  }

  predicate SameConstructor(v: Json.Value, w: Json.Value) {
    match v
    case Null => w.Null?
    case Flag(_) => w.Flag?
    case Number(_) => w.Number?
    case Real(_) => w.Real?
    case Text(_) => w.Text?
    case List(_) => w.List?
    case Object(_) => w.Object?
  }

  lemma SameKind(v: Json.Value, w: Json.Value)
    requires Tag(v) == Tag(w)
    ensures SameConstructor(v, w)
  {}

  lemma {:induction false} RestUnique(v: Json.Value, w: Json.Value, x: seq<Byte>, y: seq<Byte>)
    requires SameConstructor(v, w) && Rest(v) + x == Rest(w) + y
    ensures v == w && x == y
    decreases v, 1
  {
    hide ByteOf, Unary, Signed, Chars, Items, Pairs, Listed;
    match v
    case Null =>
      assert Rest(v) + x == x && Rest(w) + y == y;
    case Flag(b) =>
      UnaryUnique(if b then 1 else 0, if w.b then 1 else 0, x, y);
    case Number(n) =>
      SignedUnique(n, w.n, x, y);
    case Real(r) =>
      Regroup(Signed(r.mantissa), Signed(r.exponent), x);
      Regroup(Signed(w.r.mantissa), Signed(w.r.exponent), y);
      SignedUnique(r.mantissa, w.r.mantissa, Signed(r.exponent) + x, Signed(w.r.exponent) + y);
      SignedUnique(r.exponent, w.r.exponent, x, y);
    case Text(s) =>
      CharsUnique(s, w.s, x, y);
    case List(items) =>
      ItemsUnique(items, w.items, 0, x, y);
      assert items[0..] == items && w.items[0..] == w.items;
    case Object(fields) =>
      PairsUnique(v, Listed(fields.Keys), w, Listed(w.fields.Keys), x, y);
      SameFields(fields, w.fields);
  }

  lemma SameFields(f: map<string, Json.Value>, g: map<string, Json.Value>)
    requires Listed(f.Keys) == Listed(g.Keys)
    requires forall k <- Listed(f.Keys) :: k in f && k in g && f[k] == g[k]
    ensures f == g
  {
    assert forall k :: k in f.Keys <==> k in Listed(f.Keys);
    assert forall k :: k in g.Keys <==> k in Listed(g.Keys);
    assert f.Keys == g.Keys;
  }

  lemma {:induction false} ItemsUnique(p: seq<Json.Value>, q: seq<Json.Value>, i: nat, x: seq<Byte>, y: seq<Byte>)
    requires i <= |p| && i <= |q| && Items(p, i) + x == Items(q, i) + y
    ensures p[i..] == q[i..] && x == y
    decreases p, |p| - i, 1
  {
    hide *;
    SameEnd(p, q, i, x, y);
    if i == |p| {
      ItemsEnd(p);
      ItemsEnd(q);
      SameHead(CLOSE, x, CLOSE, y);
    } else {
      if i == 0 {
        ItemsFirst(p);
        ItemsFirst(q);
      } else {
        ItemsNext(p, i);
        ItemsNext(q, i);
        Regroup([ByteOf(COMMA)], Item(p, i), x);
        Regroup([ByteOf(COMMA)], Item(q, i), y);
        SameHead(COMMA, Item(p, i) + x, COMMA, Item(q, i) + y);
      }
      ItemUnique(p, q, i, x, y);
    }
  }

  lemma {:induction false} ItemUnique(p: seq<Json.Value>, q: seq<Json.Value>, i: nat, x: seq<Byte>, y: seq<Byte>)
    requires i < |p| && i < |q| && Item(p, i) + x == Item(q, i) + y
    ensures p[i..] == q[i..] && x == y
    decreases p, |p| - i, 0
  {
    hide *;
    ItemMeans(p, i);
    ItemMeans(q, i);
    Regroup(Encode(p[i]), Items(p, i + 1), x);
    Regroup(Encode(q[i]), Items(q, i + 1), y);
    FrontUnique(p[i], q[i], Items(p, i + 1) + x, Items(q, i + 1) + y);
    ItemsUnique(p, q, i + 1, x, y);
    assert p[i..] == [p[i]] + p[i + 1..] && q[i..] == [q[i]] + q[i + 1..];
  }

  lemma ItemMeans(items: seq<Json.Value>, i: nat)
    requires i < |items|
    ensures Item(items, i) == Encode(items[i]) + Items(items, i + 1)
  {
    hide Encode, Items;
  }

  lemma ItemsEnd(items: seq<Json.Value>)
    ensures Items(items, |items|) == [ByteOf(CLOSE)]
  {
    hide Item, ByteOf;
  }

  lemma ItemsFirst(items: seq<Json.Value>)
    requires |items| > 0
    ensures Items(items, 0) == Item(items, 0)
  {
    hide Item, ByteOf;
  }

  lemma ItemsNext(items: seq<Json.Value>, i: nat)
    requires 0 < i < |items|
    ensures Items(items, i) == [ByteOf(COMMA)] + Item(items, i)
  {
    hide Item, ByteOf;
  }

  // The byte at which the items from the i-th on begin: only at the end it is a closing bracket.
  function Begin(items: seq<Json.Value>, i: nat): (head: nat)
    requires i <= |items|
    ensures head < 256 && (head == CLOSE <==> i == |items|)
  {
    if i == |items| then CLOSE else if i == 0 then Tag(items[i]) else COMMA
  }

  lemma ItemsBegin(items: seq<Json.Value>, i: nat)
    requires i <= |items|
    ensures Items(items, i)[0] == ByteOf(Begin(items, i))
  {
    hide *;
    if i == |items| {
      ItemsEnd(items);
    } else if i == 0 {
      ItemsFirst(items);
      ItemMeans(items, 0);
      EncodeMeans(items[0]);
    } else {
      ItemsNext(items, i);
    }
    BeginMeans(items, i);
  }

  lemma BeginMeans(items: seq<Json.Value>, i: nat)
    requires i <= |items|
    ensures Begin(items, i) == if i == |items| then CLOSE else if i == 0 then Tag(items[i]) else COMMA
  {}

  lemma SameEnd(p: seq<Json.Value>, q: seq<Json.Value>, i: nat, x: seq<Byte>, y: seq<Byte>)
    requires i <= |p| && i <= |q| && Items(p, i) + x == Items(q, i) + y
    ensures i == |p| <==> i == |q|
  {
    hide *;
    ItemsBegin(p, i);
    ItemsBegin(q, i);
    assert (Items(p, i) + x)[0] == Items(p, i)[0] && (Items(q, i) + y)[0] == Items(q, i)[0];
    assert Bytes.Value(ByteOf(Begin(p, i))) == Bytes.Value(ByteOf(Begin(q, i)));
  }

  lemma {:induction false} PairsUnique(v: Json.Value, ks: seq<string>, w: Json.Value, ls: seq<string>, x: seq<Byte>, y: seq<Byte>)
    requires v.Object? && forall k <- ks :: k in v.fields
    requires w.Object? && forall k <- ls :: k in w.fields
    requires Pairs(v, ks) + x == Pairs(w, ls) + y
    ensures ks == ls && x == y
    ensures forall k <- ks :: v.fields[k] == w.fields[k]
    decreases v, 0, |ks|, 1
  {
    hide ByteOf, Pairs, Pair;
    var (a, s) := if |ks| == 0 then (0, []) else (1, Pair(v, ks));
    var (b, t) := if |ls| == 0 then (0, []) else (1, Pair(w, ls));
    PairsMean(v, ks);
    PairsMean(w, ls);
    assert Pairs(v, ks) == [ByteOf(a)] + s && Pairs(w, ls) == [ByteOf(b)] + t;
    Regroup([ByteOf(a)], s, x);
    Regroup([ByteOf(b)], t, y);
    SameHead(a, s + x, b, t + y);
    if |ks| > 0 {
      PairUnique(v, ks, w, ls, x, y);
    } else {
      assert s + x == x && t + y == y;
    }
  }

  lemma PairsMean(v: Json.Value, ks: seq<string>)
    requires v.Object? && forall k <- ks :: k in v.fields
    ensures Pairs(v, ks) == if |ks| == 0 then [ByteOf(0)] else [ByteOf(1)] + Pair(v, ks)
  {
    hide ByteOf, Pair;
  }

  lemma {:induction false} PairUnique(v: Json.Value, ks: seq<string>, w: Json.Value, ls: seq<string>, x: seq<Byte>, y: seq<Byte>)
    requires v.Object? && |ks| > 0 && forall k <- ks :: k in v.fields
    requires w.Object? && |ls| > 0 && forall k <- ls :: k in w.fields
    requires Pair(v, ks) + x == Pair(w, ls) + y
    ensures ks == ls && x == y
    ensures forall k <- ks :: v.fields[k] == w.fields[k]
    decreases v, 0, |ks|, 0
  {
    hide Chars, Encode, Pairs;
    var (g, h) := (v.fields[ks[0]], w.fields[ls[0]]);
    var (s, t) := (Pairs(v, ks[1..]), Pairs(w, ls[1..]));
    Regroup(Chars(ks[0]), Encode(g) + s, x);
    Regroup(Chars(ls[0]), Encode(h) + t, y);
    Regroup(Encode(g), s, x);
    Regroup(Encode(h), t, y);
    CharsUnique(ks[0], ls[0], Encode(g) + (s + x), Encode(h) + (t + y));
    FrontUnique(g, h, s + x, t + y);
    PairsUnique(v, ks[1..], w, ls[1..], x, y);
    assert ks == [ks[0]] + ks[1..] && ls == [ls[0]] + ls[1..];
  }

  // ----- lists as they are joined, and the codec

  lemma {:induction false} ListIsJoined(codec: Codec, items: seq<Json.Value>, i: nat)
    requires forall v :: codec.encode(v) == Encode(v)
    requires i <= |items|
    ensures Inner(codec.Encoded(items)) + [ByteOf(CLOSE)] == Inner(codec.Encoded(items)[..i]) + Items(items, i)
    decreases |items| - i
  {
    hide ByteOf, Inner, Items, Item, Encode;
    var texts := codec.Encoded(items);
    if i == |items| {
      assert texts[..i] == texts;
      ItemsEnd(items);
    } else {
      ListIsJoined(codec, items, i + 1);
      OneMore(texts, i);
      ItemMeans(items, i);
      var (before, text, rest) := (Inner(texts[..i]), Encode(items[i]), Items(items, i + 1));
      if i == 0 {
        ItemsFirst(items);
        Regroup(before, text, rest);
        assert before + [] == before;
      } else {
        ItemsNext(items, i);
        Regroup(before + [ByteOf(COMMA)], text, rest);
        Regroup(before, [ByteOf(COMMA)], text + rest);
      }
    }
  }

  lemma OneMore(texts: seq<seq<Byte>>, i: nat)
    requires i < |texts|
    ensures Inner(texts[..i + 1]) == Inner(texts[..i]) + (if i == 0 then [] else [ByteOf(COMMA)]) + texts[i]
  {
    hide ByteOf;
    assert texts[..i + 1][..i] == texts[..i];
  }

  ghost function Parse(text: seq<Byte>): Option<Json.Value> {
    if exists v :: Encode(v) == text then
      var v :| Encode(v) == text;
      Some(v)
    else None
  }

  ghost function SomeCodec(): Codec {
    Codec((v: Json.Value) => Encode(v), (text: seq<Byte>) => Parse(text))
  }

  lemma ParseEncode(v: Json.Value)
    ensures Parse(Encode(v)) == Some(v)
  {
    hide Encode;
    var w := Parse(Encode(v)).value;
    FrontUnique(v, w, [], []);
  }

  lemma ListText(codec: Codec, items: seq<Json.Value>)
    requires forall v :: codec.encode(v) == Encode(v)
    ensures ListBytes(codec.Encoded(items)) == Encode(List(items))
  {
    hide ByteOf, Inner, Items, Codec.Encoded;
    var texts := codec.Encoded(items);
    ListIsJoined(codec, items, 0);
    assert texts[..0] == [];
    assert Inner([]) == [] by { InnerOfNone(); }
    assert [] + Items(items, 0) == Items(items, 0);
    Regroup([ByteOf(OPEN)], Inner(texts), [ByteOf(CLOSE)]);
  }

  lemma InnerOfNone()
    ensures Inner([]) == []
  {}

  lemma SomeCodecIsSound()
    ensures SomeCodec().Sound()
  {
    hide Encode, Parse, ListBytes, Codec.Encoded;
    var codec := SomeCodec();
    forall v
      ensures codec.parse(codec.encode(v)) == Some(v)
    {
      ParseEncode(v);
    }
    forall items
      ensures codec.parse(ListBytes(codec.Encoded(items))) == Some(List(items))
    {
      ListText(codec, items);
      ParseEncode(List(items));
    }
  }
}
