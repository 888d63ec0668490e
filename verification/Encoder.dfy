// The block encoder of dbs/container/rs.py: the loops that build the tables, the batched
// parity, encode_many, strip_parity and the check that finds damaged codewords.
module Encoder {
  import opened Wrappers
  import opened Bytes
  import opened GaloisField
  import opened ReedSolomon
  import opened Parity

  const PARITY_BATCH_ROWS: nat := 4096

  function MessageLength(nsym: nat): nat
    requires nsym < CODEWORD_SIZE
  {
    CODEWORD_SIZE - nsym
  }

  predicate ValidNsym(nsym: nat) {
    1 <= nsym <= 254
  }

  // ----- the tables

  lemma TimesLinearIs(poly: seq<Byte>, root: Byte, product: seq<Byte>)
    requires |product| == |poly| + 1 && product[0] == (poly + [ZERO])[0]
    requires forall i :: 0 < i < |product| ==> product[i] == Xor((poly + [ZERO])[i], Multiply(poly[i - 1], root))
    ensures product == TimesLinear(poly, root)
  {
    hide Xor, Multiply;
    var expected := TimesLinear(poly, root);
    forall i | 0 <= i < |product| ensures product[i] == expected[i] {
      if i == 0 {
        XorZero(product[0]);
      } else {
        MultiplyCommutes(poly[i - 1], root);
      }
    }
  }

  // One factor of the generator: adding the polynomial times the root, one place further on.
  method MultiplyByLinear(exp: seq<Byte>, log: seq<nat>, poly: seq<Byte>, root: Byte) returns (product: seq<Byte>)
    requires IsExpTable(exp) && IsLogTable(log)
    ensures product == TimesLinear(poly, root)
  {
    hide *;
    var extended := poly + [ZERO];
    product := extended;
    for index := 0 to |poly|
      invariant |product| == |extended|
      invariant product[0] == extended[0]
      invariant forall i :: 0 < i <= index ==> product[i] == Xor(extended[i], Multiply(poly[i - 1], root))
      invariant forall i :: index < i < |product| ==> product[i] == extended[i]
    {
      product := product[index + 1 := Xor(product[index + 1], MultiplyByTables(exp, log, poly[index], root))];
    }
    TimesLinearIs(poly, root, product);
  }

  method Generator(exp: seq<Byte>, log: seq<nat>, nsym: nat) returns (poly: seq<Byte>)
    requires IsExpTable(exp) && IsLogTable(log) && nsym <= 254
    ensures poly == GeneratorOf(nsym)
  {
    hide TimesLinear, Alpha;
    poly := [ONE];
    GeneratorStep(0);
    for power := 0 to nsym
      invariant poly == GeneratorOf(power)
    {
      GeneratorStep(power + 1);
      poly := MultiplyByLinear(exp, log, poly, exp[power]);
    }
  }

  method PositionRemainders(exp: seq<Byte>, log: seq<nat>, nsym: nat) returns (remainders: seq<seq<Byte>>)
    requires IsExpTable(exp) && IsLogTable(log) && ValidNsym(nsym)
    ensures |remainders| == MessageLength(nsym)
    ensures forall p: nat :: p < |remainders| ==> remainders[p] == RemainderAt(nsym, MessageLength(nsym) - 1 - p)
  {
    hide Xor, Multiply, Alpha, MultiplyByTables, RemainderAt, NextRemainder, GeneratorOf;
    var generator := Generator(exp, log, nsym);
    var tail := generator[1..];
    var remainder := tail;
    RemainderStep(nsym, 0);
    var forward := [remainder];
    for k := 0 to CODEWORD_SIZE - nsym - 1
      invariant |forward| == k + 1
      invariant remainder == RemainderAt(nsym, k)
      invariant forall i: nat :: i < |forward| ==> forward[i] == RemainderAt(nsym, i)
    {
      var lead := remainder[0];
      var shifted := remainder[1..] + [ZERO];
      var next := seq(nsym, i requires 0 <= i < nsym && IsExpTable(exp) && IsLogTable(log) =>
        Xor(shifted[i], MultiplyByTables(exp, log, lead, tail[i])));
      NextRemainderMeans(remainder, tail, next);
      RemainderStep(nsym, k + 1);
      remainder := next;
      forward := forward + [remainder];
    }
    var n := |forward|;
    remainders := seq(n, i requires 0 <= i < n => forward[n - 1 - i]);
  }

  lemma NextRemainderMeans(remainder: seq<Byte>, tail: seq<Byte>, next: seq<Byte>)
    requires |remainder| == |tail| == |next| > 0
    requires forall i :: 0 <= i < |next| ==>
      next[i] == Xor((remainder[1..] + [ZERO])[i], Multiply(remainder[0], tail[i]))
    ensures next == NextRemainder(remainder, tail)
  {
    hide Xor, Multiply;
  }

  // One position's row: every symbol times the remainder of the position.
  ghost predicate IsTableRow(row: seq<seq<Byte>>, remainder: seq<Byte>) {
    |row| == 256 && forall b: Byte :: row[Value(b)] == Scale(b, remainder)
  }

  ghost predicate IsParityTable(table: seq<seq<seq<Byte>>>, nsym: nat) {
    && ValidNsym(nsym)
    && |table| == MessageLength(nsym)
    && forall p: nat :: p < |table| ==> IsTableRow(table[p], RemainderAt(nsym, MessageLength(nsym) - 1 - p))
  }

  function TableRow(exp: seq<Byte>, log: seq<nat>, remainder: seq<Byte>): (row: seq<seq<Byte>>)
    requires IsExpTable(exp) && IsLogTable(log)
    ensures IsTableRow(row, remainder)
  {
    hide Multiply, Value, MultiplyByTables, ByteOf, IsExpTable, IsLogTable;
    var row := seq(256, v requires 0 <= v < 256 && IsExpTable(exp) && IsLogTable(log) =>
      seq(|remainder|, i requires 0 <= i < |remainder| && IsExpTable(exp) && IsLogTable(log) =>
        MultiplyByTables(exp, log, ByteOf(v), remainder[i])));
    assert forall b: Byte :: row[Value(b)] == Scale(b, remainder) by {
      forall b: Byte ensures row[Value(b)] == Scale(b, remainder) {
        ByteOfValue(b);
      }
    }
    row
  }

  method ParityTable(exp: seq<Byte>, log: seq<nat>, nsym: nat) returns (table: seq<seq<seq<Byte>>>)
    requires IsExpTable(exp) && IsLogTable(log) && ValidNsym(nsym)
    ensures IsParityTable(table, nsym)
  {
    hide Multiply, Alpha, Value, MultiplyByTables, RemainderAt, Scale, TableRow, IsTableRow, IsExpTable, IsLogTable;
    var remainders := PositionRemainders(exp, log, nsym);
    table := [];
    for position := 0 to |remainders|
      invariant |table| == position
      invariant forall p: nat :: p < |table| ==>
        IsTableRow(table[p], RemainderAt(nsym, MessageLength(nsym) - 1 - p))
    {
      table := table + [TableRow(exp, log, remainders[position])];
    }
  }

  // ----- the parity of many rows

  // The contribution of the first symbols of a message.
  function PrefixParity(message: seq<Byte>, count: nat, nsym: nat): (p: seq<Byte>)
    requires nsym > 0 && count <= |message|
    ensures |p| == nsym
  {
    if count == 0 then Zeros(nsym)
    else XorWords(PrefixParity(message, count - 1, nsym),
                  Scale(message[count - 1], RemainderAt(nsym, |message| - count)))
  }

  lemma XorWordsZeros(w: seq<Byte>)
    ensures XorWords(w, Zeros(|w|)) == w && XorWords(Zeros(|w|), w) == w
  {
    hide Xor;
    forall i | 0 <= i < |w| ensures Xor(w[i], ZERO) == w[i] && Xor(ZERO, w[i]) == w[i] {
      XorZero(w[i]);
    }
  }

  lemma XorWordsAssociates(u: seq<Byte>, v: seq<Byte>, w: seq<Byte>)
    requires |u| == |v| == |w|
    ensures XorWords(XorWords(u, v), w) == XorWords(u, XorWords(v, w))
  {
    hide Xor;
    forall i | 0 <= i < |u| ensures Xor(Xor(u[i], v[i]), w[i]) == Xor(u[i], Xor(v[i], w[i])) {
      XorAssociates(u[i], v[i], w[i]);
    }
  }

  lemma {:induction false} PrefixAndRest(message: seq<Byte>, count: nat, nsym: nat)
    requires nsym > 0 && count <= |message|
    ensures XorWords(PrefixParity(message, count, nsym), ParityOf(message[count..], nsym)) == ParityOf(message, nsym)
  {
    hide Xor, Multiply, RemainderAt, Scale, XorWords;
    if count == 0 {
      XorWordsZeros(ParityOf(message, nsym));
      assert message[0..] == message;
    } else {
      var rest := message[count - 1..];
      PrefixAndRest(message, count - 1, nsym);
      assert rest[1..] == message[count..];
      XorWordsAssociates(PrefixParity(message, count - 1, nsym),
                         Scale(rest[0], RemainderAt(nsym, |rest| - 1)), ParityOf(message[count..], nsym));
    }
  }

  lemma WholePrefix(message: seq<Byte>, n: nat, nsym: nat)
    requires nsym > 0 && n == |message|
    ensures PrefixParity(message, n, nsym) == ParityOf(message, nsym)
  {
    PrefixAndRest(message, n, nsym);
    assert message[n..] == [];
    XorWordsZeros(PrefixParity(message, n, nsym));
  }

  lemma PrefixStart(nsym: nat, messages: seq<seq<Byte>>)
    requires nsym > 0
    ensures forall r :: 0 <= r < |messages| ==> PrefixParity(messages[r], 0, nsym) == Zeros(nsym)
  {}

  // The table row of a position and symbol is what the symbol adds to the parity.
  lemma ParityStep(message: seq<Byte>, position: nat, table: seq<seq<seq<Byte>>>, nsym: nat)
    requires IsParityTable(table, nsym) && |message| == MessageLength(nsym) && position < |message|
    ensures |table[position]| == 256 && |table[position][Value(message[position])]| == nsym
    ensures PrefixParity(message, position + 1, nsym)
         == XorWords(PrefixParity(message, position, nsym), table[position][Value(message[position])])
  {
    hide Xor, Multiply, RemainderAt, Scale, XorWords, Value;
  }

  method ParityRows(messages: seq<seq<Byte>>, table: seq<seq<seq<Byte>>>, nsym: nat) returns (accumulator: array<seq<Byte>>)
    requires IsParityTable(table, nsym)
    requires forall r :: 0 <= r < |messages| ==> |messages[r]| == MessageLength(nsym)
    ensures fresh(accumulator) && accumulator.Length == |messages|
    ensures forall r :: 0 <= r < |messages| ==> accumulator[r] == ParityOf(messages[r], nsym)
  {
    hide Xor, Value, Multiply, RemainderAt, Scale, XorWords, ParityOf, PrefixParity, IsTableRow;
    PrefixStart(nsym, messages);
    accumulator := new seq<Byte>[|messages|](_ => Zeros(nsym));
    for position := 0 to MessageLength(nsym)
      invariant forall r :: 0 <= r < |messages| ==> accumulator[r] == PrefixParity(messages[r], position, nsym)
    {
      for row := 0 to |messages|
        invariant forall r :: 0 <= r < row ==> accumulator[r] == PrefixParity(messages[r], position + 1, nsym)
        invariant forall r :: row <= r < |messages| ==> accumulator[r] == PrefixParity(messages[r], position, nsym)
      {
        ParityStep(messages[row], position, table, nsym);
        var gathered := table[position][Value(messages[row][position])];
        accumulator[row] := XorWords(accumulator[row], gathered);
      }
    }
    forall r | 0 <= r < |messages| ensures accumulator[r] == ParityOf(messages[r], nsym) {
      WholePrefix(messages[r], |messages[r]|, nsym);
    }
  }

  // Rows are taken in batches; the batching is invisible in the result.
  method ParityMany(messages: seq<seq<Byte>>, table: seq<seq<seq<Byte>>>, nsym: nat) returns (result: array<seq<Byte>>)
    requires IsParityTable(table, nsym)
    requires forall r :: 0 <= r < |messages| ==> |messages[r]| == MessageLength(nsym)
    ensures fresh(result) && result.Length == |messages|
    ensures forall r :: 0 <= r < |messages| ==> result[r] == ParityOf(messages[r], nsym)
  {
    hide Xor, Multiply, RemainderAt, Scale, XorWords, ParityOf, IsParityTable;
    assert nsym > 0 by { ParityTableNsym(table, nsym); }
    var count := |messages|;
    if count <= PARITY_BATCH_ROWS {
      result := ParityRows(messages, table, nsym);
      return;
    }
    result := new seq<Byte>[count](_ => []);
    var start := 0;
    while start < count
      invariant start <= count
      invariant forall r :: 0 <= r < start ==> result[r] == ParityOf(messages[r], nsym)
    {
      var end := if start + PARITY_BATCH_ROWS <= count then start + PARITY_BATCH_ROWS else count;
      var rows := messages[start..end];
      var part := ParityRows(rows, table, nsym);
      forall i | 0 <= i < |rows| {
        result[start + i] := part[i];
      }
      forall r | start <= r < end ensures result[r] == ParityOf(messages[r], nsym) {
        assert result[start + (r - start)] == part[r - start];
      }
      start := end;
    }
  }

  lemma ParityTableNsym(table: seq<seq<seq<Byte>>>, nsym: nat)
    requires IsParityTable(table, nsym)
    ensures ValidNsym(nsym)
  {}

  // ----- blocks

  function PieceLength(length: nat, nsym: nat): (n: nat)
    requires ValidNsym(nsym) && length > 0
    ensures 0 < n <= length && n <= MessageLength(nsym)
  {
    if length < MessageLength(nsym) then length else MessageLength(nsym)
  }

  // A block encoded: each piece of at most MessageLength bytes followed by its parity.
  function EncodeBlock(data: seq<Byte>, nsym: nat): seq<Byte>
    requires ValidNsym(nsym)
    decreases |data|
  {
    if |data| == 0 then []
    else
      var n := PieceLength(|data|, nsym);
      data[..n] + ParityOf(data[..n], nsym) + EncodeBlock(data[n..], nsym)
  }

  // The rows of a block; a short last row is padded with zeros on the left.
  function MessageRows(data: seq<Byte>, nsym: nat): (rows: seq<seq<Byte>>)
    requires ValidNsym(nsym)
    ensures forall r :: 0 <= r < |rows| ==> |rows[r]| == MessageLength(nsym)
    decreases |data|
  {
    if |data| == 0 then []
    else
      var n := PieceLength(|data|, nsym);
      [Zeros(MessageLength(nsym) - n) + data[..n]] + MessageRows(data[n..], nsym)
  }

  // The pieces of a block with one given parity after each.
  function Assemble(data: seq<Byte>, parities: seq<seq<Byte>>, nsym: nat): seq<Byte>
    requires ValidNsym(nsym) && |parities| == |MessageRows(data, nsym)|
    decreases |data|
  {
    if |data| == 0 then []
    else
      var n := PieceLength(|data|, nsym);
      data[..n] + parities[0] + Assemble(data[n..], parities[1..], nsym)
  }

  lemma {:induction false} PaddedParity(zeros: nat, message: seq<Byte>, nsym: nat)
    requires nsym > 0
    ensures ParityOf(Zeros(zeros) + message, nsym) == ParityOf(message, nsym)
  {
    hide Xor, Multiply, RemainderAt, XorWords;
    if zeros == 0 {
      assert Zeros(0) + message == message;
    } else {
      var padded := Zeros(zeros) + message;
      assert padded[1..] == Zeros(zeros - 1) + message;
      PaddedParity(zeros - 1, message, nsym);
      var remainder := RemainderAt(nsym, |padded| - 1);
      forall i | 0 <= i < nsym ensures Multiply(ZERO, remainder[i]) == ZERO {
        MultiplyZero(remainder[i]);
      }
      assert Scale(padded[0], remainder) == Zeros(nsym);
      XorWordsZeros(ParityOf(padded[1..], nsym));
    }
  }

  lemma {:induction false} AssembleIsEncode(data: seq<Byte>, parities: seq<seq<Byte>>, nsym: nat)
    requires ValidNsym(nsym) && |parities| == |MessageRows(data, nsym)|
    requires forall r :: 0 <= r < |parities| ==> parities[r] == ParityOf(MessageRows(data, nsym)[r], nsym)
    ensures Assemble(data, parities, nsym) == EncodeBlock(data, nsym)
    decreases |data|
  {
    hide ParityOf;
    if |data| > 0 {
      var n := PieceLength(|data|, nsym);
      PaddedParity(MessageLength(nsym) - n, data[..n], nsym);
      assert parities[0] == ParityOf(data[..n], nsym);
      assert MessageRows(data, nsym)[1..] == MessageRows(data[n..], nsym);
      forall r | 0 <= r < |parities| - 1
        ensures parities[1..][r] == ParityOf(MessageRows(data[n..], nsym)[r], nsym)
      {
        assert MessageRows(data[n..], nsym)[r] == MessageRows(data, nsym)[r + 1];
      }
      AssembleIsEncode(data[n..], parities[1..], nsym);
    }
  }

  function AllRows(blocks: seq<seq<Byte>>, nsym: nat): (rows: seq<seq<Byte>>)
    requires ValidNsym(nsym)
    ensures forall r :: 0 <= r < |rows| ==> |rows[r]| == MessageLength(nsym)
  {
    if |blocks| == 0 then [] else MessageRows(blocks[0], nsym) + AllRows(blocks[1..], nsym)
  }

  // encode_many: one parity pass over the rows of every block, then each block reassembled.
  method EncodeMany(blocks: seq<seq<Byte>>, table: seq<seq<seq<Byte>>>, nsym: nat) returns (encoded: seq<seq<Byte>>)
    requires IsParityTable(table, nsym)
    ensures |encoded| == |blocks|
    ensures forall i :: 0 <= i < |blocks| ==> encoded[i] == EncodeBlock(blocks[i], nsym)
  {
    hide Xor, Multiply, ParityOf, MessageRows, Assemble, EncodeBlock, IsParityTable;
    ParityTableNsym(table, nsym);
    var allRows := AllRows(blocks, nsym);
    var computed := ParityMany(allRows, table, nsym);
    var allParity := computed[..];
    encoded := [];
    var start := 0;
    for i := 0 to |blocks|
      invariant |encoded| == i
      invariant forall b :: 0 <= b < i ==> encoded[b] == EncodeBlock(blocks[b], nsym)
      invariant start <= |allRows| && allRows[start..] == AllRows(blocks[i..], nsym)
    {
      var rows := MessageRows(blocks[i], nsym);
      assert blocks[i..][0] == blocks[i] && blocks[i..][1..] == blocks[i + 1..];
      assert allRows[start..] == rows + AllRows(blocks[i + 1..], nsym);
      var count := |rows|;
      var blockParity := allParity[start..start + count];
      forall r | 0 <= r < count ensures blockParity[r] == ParityOf(rows[r], nsym) {
        assert allRows[start + r] == allRows[start..][r] == rows[r];
      }
      AssembleIsEncode(blocks[i], blockParity, nsym);
      encoded := encoded + [Assemble(blocks[i], blockParity, nsym)];
      start := start + count;
      assert allRows[start..] == allRows[start - count..][count..];
    }
  }

  // ----- lengths

  // Quotient and remainder by the message length (QuotientAndRemainder), counted down so that no
  // proof meets a division by a variable unasked.
  function FullMessages(length: nat, nsym: nat): nat
    requires ValidNsym(nsym)
  {
    if length < MessageLength(nsym) then 0 else 1 + FullMessages(length - MessageLength(nsym), nsym)
  }

  function LastMessage(length: nat, nsym: nat): nat
    requires ValidNsym(nsym)
  {
    if length < MessageLength(nsym) then length else LastMessage(length - MessageLength(nsym), nsym)
  }

  lemma {:induction false} QuotientAndRemainder(length: nat, nsym: nat)
    requires ValidNsym(nsym)
    ensures FullMessages(length, nsym) == length / MessageLength(nsym)
    ensures LastMessage(length, nsym) == length % MessageLength(nsym)
  {
    var k := MessageLength(nsym);
    if length >= k {
      QuotientAndRemainder(length - k, nsym);
      DivisionStep(length, k);
    } else {
      DivisionUnique(length, k, 0, length);
    }
  }

  function EncodedLength(length: nat, nsym: nat): nat
    requires ValidNsym(nsym)
  {
    var rest := LastMessage(length, nsym);
    FullMessages(length, nsym) * CODEWORD_SIZE + (if rest != 0 then rest + nsym else 0)
  }

  predicate IsWellFormed(encodedLength: nat, nsym: nat) {
    var rest := encodedLength % CODEWORD_SIZE;
    rest == 0 || rest > nsym
  }

  function CodewordCount(encodedLength: nat): nat {
    (encodedLength + CODEWORD_SIZE - 1) / CODEWORD_SIZE
  }

  lemma {:induction false} EncodeBlockLength(data: seq<Byte>, nsym: nat)
    requires ValidNsym(nsym)
    ensures |EncodeBlock(data, nsym)| == EncodedLength(|data|, nsym)
    ensures IsWellFormed(EncodedLength(|data|, nsym), nsym)
    decreases |data|
  {
    hide ParityOf, EncodedLength, IsWellFormed;
    var k := MessageLength(nsym);
    EncodedLengthStep(|data|, nsym);
    if |data| >= k {
      EncodeBlockLength(data[k..], nsym);
    } else if |data| > 0 {
      assert data[|data|..] == [];
    }
  }

  lemma EncodedLengthStep(length: nat, nsym: nat)
    requires ValidNsym(nsym)
    ensures var k := MessageLength(nsym);
            if length >= k then
              && EncodedLength(length, nsym) == CODEWORD_SIZE + EncodedLength(length - k, nsym)
              && (IsWellFormed(EncodedLength(length - k, nsym), nsym) ==> IsWellFormed(EncodedLength(length, nsym), nsym))
            else
              && EncodedLength(length, nsym) == (if length > 0 then length + nsym else 0)
              && IsWellFormed(EncodedLength(length, nsym), nsym)
  {
  }

  lemma DivisionStep(n: nat, k: nat)
    requires 0 < k <= n
    ensures n / k == (n - k) / k + 1 && n % k == (n - k) % k
  {
    var q, r := (n - k) / k, (n - k) % k;
    assert n == k * (q + 1) + r;
    DivisionUnique(n, k, q + 1, r);
  }

  lemma {:induction false} ProductGap(k: nat, a: nat, b: nat)
    requires a < b
    ensures k * a + k <= k * b
    decreases b - a
  {
    assert k * (b - 1) + k == k * b;
    if a < b - 1 {
      ProductGap(k, a, b - 1);
    }
  }

  lemma DivisionUnique(n: nat, k: nat, q: nat, r: nat)
    requires n == k * q + r && r < k
    ensures n / k == q && n % k == r
  {
    var p := n / k;
    assert n == k * p + n % k;
    if q > p {
      ProductGap(k, p, q);
    } else if q < p {
      ProductGap(k, q, p);
    }
  }

  // ----- codewords of an encoded block

  function WordLength(length: nat): (n: nat)
    requires length > 0
    ensures 0 < n <= length && n <= CODEWORD_SIZE
  {
    if length < CODEWORD_SIZE then length else CODEWORD_SIZE
  }

  // The codewords of an encoded block; only the last may be shorter than 255 symbols.
  function Codewords(encoded: seq<Byte>): (words: seq<seq<Byte>>)
    ensures |words| == CodewordCount(|encoded|)
    decreases |encoded|
  {
    if |encoded| == 0 then []
    else
      var n := WordLength(|encoded|);
      [encoded[..n]] + Codewords(encoded[n..])
  }

  // codeword(encoded, index): a slice that stops at the end of the block.
  function CodewordAt(encoded: seq<Byte>, index: nat): (word: seq<Byte>)
    requires index < CodewordCount(|encoded|)
  {
    var start := index * CODEWORD_SIZE;
    var end := start + CODEWORD_SIZE;
    encoded[start..if end < |encoded| then end else |encoded|]
  }

  lemma LaterSlice(encoded: seq<Byte>, index: nat)
    requires 0 < index < CodewordCount(|encoded|)
    ensures |encoded| > CODEWORD_SIZE && index - 1 < CodewordCount(|encoded[CODEWORD_SIZE..]|)
    ensures CodewordAt(encoded[CODEWORD_SIZE..], index - 1) == CodewordAt(encoded, index)
  {
    var start := index * CODEWORD_SIZE;
    var rest := encoded[CODEWORD_SIZE..];
    assert (index - 1) * CODEWORD_SIZE == start - CODEWORD_SIZE;
    var end := if start + CODEWORD_SIZE < |encoded| then start + CODEWORD_SIZE else |encoded|;
    assert rest[start - CODEWORD_SIZE..end - CODEWORD_SIZE] == encoded[start..end];
  }

  lemma {:induction false} CodewordAtIndex(encoded: seq<Byte>, index: nat)
    requires index < CodewordCount(|encoded|)
    ensures Codewords(encoded)[index] == CodewordAt(encoded, index)
    decreases |encoded|
  {
    var n := WordLength(|encoded|);
    if index > 0 {
      assert n == CODEWORD_SIZE;
      var rest := encoded[n..];
      assert encoded == encoded[..n] + rest && |rest| == |encoded| - CODEWORD_SIZE;
      CodewordAtIndex(rest, index - 1);
      LaterSlice(encoded, index);
    }
  }

  // Every codeword of a well-formed block is longer than its parity.
  lemma {:induction false} CodewordsAreLong(encoded: seq<Byte>, nsym: nat)
    requires ValidNsym(nsym) && IsWellFormed(|encoded|, nsym)
    ensures forall i :: 0 <= i < |Codewords(encoded)| ==> nsym < |Codewords(encoded)[i]| <= CODEWORD_SIZE
    decreases |encoded|
  {
    if |encoded| > 0 {
      CodewordsAreLong(encoded[WordLength(|encoded|)..], nsym);
    }
  }

  // The data of an encoded block: every codeword without its last nsym symbols.
  function StripWords(encoded: seq<Byte>, nsym: nat): seq<Byte>
    requires ValidNsym(nsym) && IsWellFormed(|encoded|, nsym)
    decreases |encoded|
  {
    if |encoded| == 0 then []
    else
      var n := WordLength(|encoded|);
      encoded[..n - nsym] + StripWords(encoded[n..], nsym)
  }

  function StripParity(encoded: seq<Byte>, nsym: nat): Option<seq<Byte>>
    requires ValidNsym(nsym)
  {
    if !IsWellFormed(|encoded|, nsym) then None else Some(StripWords(encoded, nsym))
  }

  lemma FirstCodeword(word: seq<Byte>, rest: seq<Byte>, nsym: nat)
    requires ValidNsym(nsym) && nsym < |word| <= CODEWORD_SIZE
    requires |word| == CODEWORD_SIZE || rest == []
    requires IsWellFormed(|rest|, nsym)
    ensures IsWellFormed(|word + rest|, nsym)
    ensures Codewords(word + rest) == [word] + Codewords(rest)
    ensures StripWords(word + rest, nsym) == word[..|word| - nsym] + StripWords(rest, nsym)
  {
    var encoded := word + rest;
    assert |word| == WordLength(|encoded|);
    assert encoded[..|word|] == word && encoded[|word|..] == rest;
    assert encoded[..|word| - nsym] == word[..|word| - nsym];
  }

  lemma SoundWord(piece: seq<Byte>, rest: seq<Byte>, nsym: nat)
    requires ValidNsym(nsym) && 0 < |piece| <= MessageLength(nsym)
    requires |piece| == MessageLength(nsym) || rest == []
    requires IsWellFormed(|rest|, nsym)
    ensures var encoded := piece + ParityOf(piece, nsym) + rest;
            && IsWellFormed(|encoded|, nsym)
            && Codewords(encoded) == [piece + ParityOf(piece, nsym)] + Codewords(rest)
            && StripWords(encoded, nsym) == piece + StripWords(rest, nsym)
  {
    hide ParityOf, Codewords, StripWords, IsWellFormed;
    var word := piece + ParityOf(piece, nsym);
    FirstCodeword(word, rest, nsym);
    assert word[..|word| - nsym] == piece;
  }

  lemma EmptyBlockIsSound(nsym: nat)
    requires ValidNsym(nsym)
    ensures EncodeBlock([], nsym) == [] && IsWellFormed(0, nsym) && StripWords([], nsym) == [] && Codewords([]) == []
  {}

  lemma EncodeStep(data: seq<Byte>, nsym: nat)
    requires ValidNsym(nsym) && |data| > 0
    ensures nsym > 0
    ensures var n := PieceLength(|data|, nsym);
            && EncodeBlock(data, nsym) == data[..n] + ParityOf(data[..n], nsym) + EncodeBlock(data[n..], nsym)
            && (n == MessageLength(nsym) || (data[n..] == [] && EncodeBlock(data[n..], nsym) == []))
  {
    hide ParityOf;
  }

  // What encode_many emits is a sequence of words of the code, and stripping it gives the data.
  lemma {:induction false} EncodedBlockIsSound(data: seq<Byte>, nsym: nat)
    requires ValidNsym(nsym)
    ensures var encoded := EncodeBlock(data, nsym);
            && IsWellFormed(|encoded|, nsym)
            && StripWords(encoded, nsym) == data
            && forall i :: 0 <= i < |Codewords(encoded)| ==> Vanishes(Codewords(encoded)[i], nsym)
    decreases |data|
  {
    hide *;
    if |data| > 0 {
      var n := PieceLength(|data|, nsym);
      var piece, rest := data[..n], data[n..];
      EncodeStep(data, nsym);
      EncodedBlockIsSound(rest, nsym);
      SoundWord(piece, EncodeBlock(rest, nsym), nsym);
      EncodedVanishes(piece, nsym);
      assert data == piece + rest;
    } else {
      EmptyBlockIsSound(nsym);
      assert data == [];
    }
  }

  // ----- finding damage

  // The padded messages and the stored parities of the codewords.
  function SplitMessages(encoded: seq<Byte>, nsym: nat): (messages: seq<seq<Byte>>)
    requires ValidNsym(nsym) && IsWellFormed(|encoded|, nsym)
    ensures forall r :: 0 <= r < |messages| ==> |messages[r]| == MessageLength(nsym)
    decreases |encoded|
  {
    if |encoded| == 0 then []
    else
      var n := WordLength(|encoded|);
      [Zeros(CODEWORD_SIZE - n) + encoded[..n - nsym]] + SplitMessages(encoded[n..], nsym)
  }

  function SplitParities(encoded: seq<Byte>, nsym: nat): seq<seq<Byte>>
    requires ValidNsym(nsym) && IsWellFormed(|encoded|, nsym)
    decreases |encoded|
  {
    if |encoded| == 0 then []
    else
      var n := WordLength(|encoded|);
      [encoded[n - nsym..n]] + SplitParities(encoded[n..], nsym)
  }

  // A stored parity matches the computed one exactly when the codeword is a word of the code.
  lemma SplitWord(encoded: seq<Byte>, nsym: nat)
    requires ValidNsym(nsym) && IsWellFormed(|encoded|, nsym) && |encoded| > 0
    ensures var n := WordLength(|encoded|);
            nsym <= n <= |encoded| &&
            (ParityOf(Zeros(CODEWORD_SIZE - n) + encoded[..n - nsym], nsym) == encoded[n - nsym..n]
             <==> Vanishes(encoded[..n], nsym))
  {
    hide ParityOf, Vanishes;
    var n := WordLength(|encoded|);
    var message, stored := encoded[..n - nsym], encoded[n - nsym..n];
    PaddedParity(CODEWORD_SIZE - n, message, nsym);
    ParityIsUnique(message, stored, nsym);
    assert message + stored == encoded[..n];
  }

  lemma {:induction false} SplitMeaning(encoded: seq<Byte>, nsym: nat)
    requires ValidNsym(nsym) && IsWellFormed(|encoded|, nsym)
    ensures |SplitMessages(encoded, nsym)| == |SplitParities(encoded, nsym)| == |Codewords(encoded)|
    ensures forall i :: 0 <= i < |Codewords(encoded)| ==>
      ((ParityOf(SplitMessages(encoded, nsym)[i], nsym) == SplitParities(encoded, nsym)[i])
       <==> Vanishes(Codewords(encoded)[i], nsym))
    decreases |encoded|
  {
    hide ParityOf, Vanishes;
    if |encoded| > 0 {
      SplitWord(encoded, nsym);
      SplitMeaning(encoded[WordLength(|encoded|)..], nsym);
    }
  }

  // The indices of the codewords that are not words of the code, in order.
  ghost function DamagedFrom(words: seq<seq<Byte>>, first: nat, nsym: nat): seq<nat>
    requires first <= |words|
    decreases |words| - first
  {
    if first == |words| then []
    else (if Vanishes(words[first], nsym) then [] else [first]) + DamagedFrom(words, first + 1, nsym)
  }

  lemma {:induction false} DamagedMembers(words: seq<seq<Byte>>, first: nat, nsym: nat, index: nat)
    requires first <= |words|
    ensures index in DamagedFrom(words, first, nsym) <==> first <= index < |words| && !Vanishes(words[index], nsym)
    decreases |words| - first
  {
    if first < |words| {
      DamagedMembers(words, first + 1, nsym, index);
    }
  }

  // Which codewords disagree with their parity, by one parity pass over all of them.
  method ConsistentMask(encoded: seq<Byte>, table: seq<seq<seq<Byte>>>, nsym: nat) returns (mask: seq<bool>)
    requires IsParityTable(table, nsym) && IsWellFormed(|encoded|, nsym)
    ensures |mask| == |Codewords(encoded)|
    ensures forall i :: 0 <= i < |mask| ==> (mask[i] <==> Vanishes(Codewords(encoded)[i], nsym))
  {
    hide ParityOf, Vanishes, SplitMessages, SplitParities, Codewords, RemainderAt;
    var messages, stored := SplitMessages(encoded, nsym), SplitParities(encoded, nsym);
    var computed := ParityMany(messages, table, nsym);
    SplitMeaning(encoded, nsym);
    mask := seq(|messages|, i requires 0 <= i < |messages| == |stored| == computed.Length reads computed =>
      computed[i] == stored[i]);
  }

  method DamagedCodewords(encoded: seq<Byte>, table: seq<seq<seq<Byte>>>, nsym: nat) returns (damaged: Option<seq<nat>>)
    requires IsParityTable(table, nsym)
    ensures damaged.None? <==> !IsWellFormed(|encoded|, nsym)
    ensures damaged.Some? ==> damaged.value == DamagedFrom(Codewords(encoded), 0, nsym)
  {
    if !IsWellFormed(|encoded|, nsym) {
      return None;
    }
    hide Vanishes, Codewords, IsParityTable;
    var mask := ConsistentMask(encoded, table, nsym);
    FalsePositionsAreDamaged(Codewords(encoded), mask, 0, nsym);
    damaged := Some(FalsePositions(mask, 0));
  }

  function FalsePositions(mask: seq<bool>, first: nat): seq<nat>
    requires first <= |mask|
    decreases |mask| - first
  {
    if first == |mask| then []
    else (if mask[first] then [] else [first]) + FalsePositions(mask, first + 1)
  }

  lemma {:induction false} FalsePositionsAreDamaged(words: seq<seq<Byte>>, mask: seq<bool>, first: nat, nsym: nat)
    requires |mask| == |words| && first <= |mask|
    requires forall i :: 0 <= i < |mask| ==> (mask[i] <==> Vanishes(words[i], nsym))
    ensures FalsePositions(mask, first) == DamagedFrom(words, first, nsym)
    decreases |mask| - first
  {
    hide Vanishes;
    if first < |mask| {
      FalsePositionsAreDamaged(words, mask, first + 1, nsym);
    }
  }

  // A codeword with 1 to nsym changed symbols is always listed.
  lemma DamageIsListed(data: seq<Byte>, received: seq<Byte>, nsym: nat, index: nat)
    requires ValidNsym(nsym) && |received| == |EncodeBlock(data, nsym)|
    requires index < CodewordCount(|received|)
    requires var (sent, got) := (CodewordAt(EncodeBlock(data, nsym), index), CodewordAt(received, index));
             1 <= Distance(sent, got) <= nsym
    ensures index in DamagedFrom(Codewords(received), 0, nsym)
  {
    hide Vanishes, Distance, EncodeBlock;
    var encoded := EncodeBlock(data, nsym);
    var sent, got := CodewordAt(encoded, index), CodewordAt(received, index);
    EncodedBlockIsSound(data, nsym);
    CodewordAtIndex(encoded, index);
    CodewordAtIndex(received, index);
    DistanceIsWeight(sent, got);
    if Vanishes(got, nsym) {
      MinimumDistance(sent, got, nsym);
    }
    DamagedMembers(Codewords(received), 0, nsym, index);
  }

  // An undamaged block lists nothing.
  lemma {:induction false} NothingListed(words: seq<seq<Byte>>, first: nat, nsym: nat)
    requires first <= |words|
    requires forall i :: 0 <= i < |words| ==> Vanishes(words[i], nsym)
    ensures DamagedFrom(words, first, nsym) == []
    decreases |words| - first
  {
    hide Vanishes;
    if first < |words| {
      NothingListed(words, first + 1, nsym);
    }
  }
}
