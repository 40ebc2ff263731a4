/** The wire format of transactions and blocks. Slices of hashes, scripts and data take what is
    left of a buffer that is too short; the fixed-size fields that follow them fail then. */
module VertexCodec {
  import opened Collections
  import opened Bytes

  const MAX_OUTPUT_VALUE := 0x8000_0000_0000_0000
  const MAX_OUTPUT_VALUE_32 := 0x7fff_ffff

  datatype TxInput = TxInput(txId: bytes, index: nat, data: bytes)

  datatype TxOutput = TxOutput(value: nat, tokenData: nat, script: bytes)

  datatype Graph = Graph(weight: bytes, timestamp: nat, parents: seq<bytes>)

  datatype Transaction = Transaction(version: nat, tokens: seq<bytes>, inputs: seq<TxInput>, outputs: seq<TxOutput>, graph: Graph, nonce: nat)

  datatype Block = Block(version: nat, outputs: seq<TxOutput>, graph: Graph, data: bytes, nonce: nat)

  // ---- output values: four bytes, or the negated value in eight

  predicate InRangeValue(v: nat) { 0 < v <= MAX_OUTPUT_VALUE }

  function EncodeValue(v: nat): bytes
    requires InRangeValue(v)
  {
    Pow256Values();
    if v > MAX_OUTPUT_VALUE_32 then ToBig(Pow256(8) - v, 8) else ToBig(v, 4)
  }

  function ReadValue(b: bytes): (r: Option<(nat, bytes)>) {
    if b == [] then None
    else if b[0] >= 0x80 then
      if |b| < 8 then None
      else
        var v := Pow256(8) - FromBig(b[..8]);
        if v < MAX_OUTPUT_VALUE_32 then None else Some((v, b[8..]))
    else ReadBig(b, 4)
  }

  lemma {:induction false} TopByte(b: bytes, n: nat)
    requires |b| == n + 1
    ensures b[0] * Pow256(n) <= FromBig(b) < (b[0] + 1) * Pow256(n)
    decreases n
  {
    hide FromBig, Pow256;
    LastByte(b);
    if n == 0 {
      Empty();
      assert b[..0] == [];
    } else {
      var x: nat, p := b[0], Pow256(n - 1);
      TopByte(b[..n], n - 1);
      Scale(x, p, n);
      Scale(x + 1, p, n);
    }
  }

  lemma {:induction false} LastByte(b: bytes)
    requires b != []
    ensures FromBig(b) == 256 * FromBig(b[..|b| - 1]) + b[|b| - 1]
  {
  }

  lemma {:induction false} Empty()
    ensures FromBig([]) == 0 && Pow256(0) == 1
  {
  }

  lemma {:induction false} Scale(x: nat, p: nat, n: nat)
    requires n > 0 && p == Pow256(n - 1)
    ensures x * Pow256(n) == 256 * (x * p)
  {
    assert Pow256(n) == 256 * p;
    assert x * (256 * p) == 256 * (x * p);
  }

  lemma {:induction false} ValueBack(v: nat, rest: bytes)
    requires InRangeValue(v)
    ensures ReadValue(EncodeValue(v) + rest) == Some((v, rest))
  {
    Pow256Values();
    var e := EncodeValue(v);
    if v > MAX_OUTPUT_VALUE_32 {
      BigRoundTrip(Pow256(8) - v, 8);
      TopByte(e, 7);
      Pow7();
      TakeDrop(e, rest);
      assert e[0] >= 0x80;
    } else {
      ReadBigOf(v, 4, rest);
      BigRoundTrip(v, 4);
      TopByte(e, 3);
      Pow7();
      assert e[0] < 0x80;
    }
  }

  lemma {:induction false} Pow7()
    ensures Pow256(3) == 0x100_0000 && Pow256(7) == 0x100_0000_0000_0000
  {
    assert Pow256(3) == 256 * Pow256(2) && Pow256(2) == 256 * Pow256(1);
    assert Pow256(7) == 256 * Pow256(6) && Pow256(6) == 256 * Pow256(5);
    assert Pow256(5) == 256 * Pow256(4) && Pow256(4) == 256 * Pow256(3);
  }

  /** The value that fits in four bytes and is still accepted in eight. */
  predicate IsWideMax(b: bytes) {
    ReadValue(b).Some? && b[0] >= 0x80 && ReadValue(b).value.0 == MAX_OUTPUT_VALUE_32
  }

  lemma {:induction false} ValueWrote(b: bytes)
    requires ReadValue(b).Some? && ReadValue(b).value.0 > 0
    ensures var (v, rest) := ReadValue(b).value;
            && InRangeValue(v)
            && if IsWideMax(b) then |EncodeValue(v) + rest| < |b| else EncodeValue(v) + rest == b
  {
    Pow256Values();
    Pow7();
    if b[0] >= 0x80 {
      TopByte(b[..8], 7);
      ReadBigWrote(b, 8);
    } else {
      TopByte(b[..4], 3);
      ReadBigWrote(b, 4);
    }
  }

  // ---- hashes, inputs, outputs

  predicate AllHashes(hashes: seq<bytes>) { forall h | h in hashes :: |h| == 32 }

  function JoinHashes(hashes: seq<bytes>): bytes {
    if hashes == [] then [] else hashes[0] + JoinHashes(hashes[1..])
  }

  function ReadHashes(b: bytes, n: nat): (seq<bytes>, bytes)
    decreases n
  {
    if n == 0 then ([], b)
    else
      var (more, rest) := ReadHashes(Slice(b, 32).1, n - 1);
      ([Slice(b, 32).0] + more, rest)
  }

  lemma {:induction false} HashesBack(hashes: seq<bytes>, rest: bytes)
    requires AllHashes(hashes)
    ensures ReadHashes(JoinHashes(hashes) + rest, |hashes|) == (hashes, rest)
    decreases |hashes|
  {
    if hashes == [] {
      assert JoinHashes(hashes) + rest == rest;
    } else {
      var tail := JoinHashes(hashes[1..]) + rest;
      assert JoinHashes(hashes) + rest == hashes[0] + tail;
      TakeDrop(hashes[0], tail);
      HashesBack(hashes[1..], rest);
      assert [hashes[0]] + hashes[1..] == hashes;
    }
  }

  /** If anything is left after the hashes, none of them was cut short. */
  lemma {:induction false} HashesWrote(b: bytes, n: nat)
    ensures var (hashes, rest) := ReadHashes(b, n);
            |hashes| == n && (rest != [] ==> AllHashes(hashes) && JoinHashes(hashes) + rest == b)
    decreases n
  {
    if n == 0 {
      assert JoinHashes([]) + b == b;
    } else {
      var (h, b1) := Slice(b, 32);
      var (more, rest) := ReadHashes(b1, n - 1);
      HashesWrote(b1, n - 1);
      var all := [h] + more;
      assert all[1..] == more;
      assert rest != [] ==> JoinHashes(all) + rest == h + (JoinHashes(more) + rest);
    }
  }

  predicate InRangeInput(i: TxInput) { |i.txId| == 32 && i.index < 0x100 && |i.data| < 0x1_0000 }

  predicate InRangeOutput(o: TxOutput) { InRangeValue(o.value) && o.tokenData < 0x100 && |o.script| < 0x1_0000 }

  /** A byte, a two-byte length and so many bytes. */
  function EncodeTail(x: nat, data: bytes): bytes { ToBig(x, 1) + ToBig(|data|, 2) + data }

  function ReadTail(b: bytes): Option<(nat, bytes, bytes)> {
    var (x, b1) :- ReadBig(b, 1);
    var (n, b2) :- ReadBig(b1, 2);
    Some((x, Slice(b2, n).0, Slice(b2, n).1))
  }

  lemma {:induction false} TailBack(x: nat, data: bytes, rest: bytes)
    requires x < 0x100 && |data| < 0x1_0000
    ensures ReadTail(EncodeTail(x, data) + rest) == Some((x, data, rest))
  {
    Pow256Values();
    assert EncodeTail(x, data) + rest == ToBig(x, 1) + (ToBig(|data|, 2) + (data + rest));
    ReadBigOf(x, 1, ToBig(|data|, 2) + (data + rest));
    ReadBigOf(|data|, 2, data + rest);
    TakeDrop(data, rest);
  }

  lemma {:induction false} TailWrote(b: bytes)
    requires ReadTail(b).Some?
    ensures var (x, data, rest) := ReadTail(b).value;
            && x < 0x100 && |data| < 0x1_0000 && |rest| + 3 <= |b|
            && (rest != [] ==> EncodeTail(x, data) + rest == b)
  {
    Pow256Values();
    ReadBigWrote(b, 1);
    ReadBigWrote(b[1..], 2);
    var (x, data, rest) := ReadTail(b).value;
    if rest != [] {
      assert EncodeTail(x, data) + rest == ToBig(x, 1) + (ToBig(|data|, 2) + (data + rest));
    }
  }

  function EncodeInput(i: TxInput): bytes { i.txId + EncodeTail(i.index, i.data) }

  function ReadInput(b: bytes): Option<(TxInput, bytes)> {
    var (index, data, rest) :- ReadTail(Slice(b, 32).1);
    Some((TxInput(Slice(b, 32).0, index, data), rest))
  }

  lemma {:induction false} InputBack(i: TxInput, rest: bytes)
    requires InRangeInput(i)
    ensures ReadInput(EncodeInput(i) + rest) == Some((i, rest))
  {
    hide ReadTail, EncodeTail;
    assert EncodeInput(i) + rest == i.txId + (EncodeTail(i.index, i.data) + rest);
    TakeDrop(i.txId, EncodeTail(i.index, i.data) + rest);
    TailBack(i.index, i.data, rest);
  }

  lemma {:induction false} InputWrote(b: bytes)
    requires ReadInput(b).Some?
    ensures var (i, rest) := ReadInput(b).value;
            b != [] && InRangeInput(i) && (rest != [] ==> EncodeInput(i) + rest == b)
  {
    hide ReadTail, EncodeTail;
    TailWrote(Slice(b, 32).1);
    var (i, rest) := ReadInput(b).value;
    assert rest != [] ==> EncodeInput(i) + rest == i.txId + (EncodeTail(i.index, i.data) + rest);
  }

  function EncodeOutput(o: TxOutput): bytes
    requires InRangeOutput(o)
  {
    EncodeValue(o.value) + EncodeTail(o.tokenData, o.script)
  }

  function ReadOutput(b: bytes): Option<(TxOutput, bytes)> {
    var (value, b1) :- ReadValue(b);
    var (tokenData, script, rest) :- ReadTail(b1);
    if InRangeValue(value) then Some((TxOutput(value, tokenData, script), rest)) else None
  }

  lemma {:induction false} OutputBack(o: TxOutput, rest: bytes)
    requires InRangeOutput(o)
    ensures ReadOutput(EncodeOutput(o) + rest) == Some((o, rest))
  {
    hide ReadTail, EncodeTail, ReadValue, EncodeValue;
    assert EncodeOutput(o) + rest == EncodeValue(o.value) + (EncodeTail(o.tokenData, o.script) + rest);
    ValueBack(o.value, EncodeTail(o.tokenData, o.script) + rest);
    TailBack(o.tokenData, o.script, rest);
  }

  lemma {:induction false} OutputWrote(b: bytes)
    requires ReadOutput(b).Some?
    ensures var (o, rest) := ReadOutput(b).value;
            && b != [] && InRangeOutput(o)
            && (rest != [] ==> if IsWideMax(b) then |EncodeOutput(o) + rest| < |b| else EncodeOutput(o) + rest == b)
  {
    hide ReadTail, EncodeTail, EncodeValue, InRangeValue;
    var (v, b1) := ReadValue(b).value;
    assert v > 0 by { PositiveValue(v); }
    ValueWrote(b);
    TailWrote(b1);
    var (o, rest) := ReadOutput(b).value;
    assert EncodeOutput(o) + rest == EncodeValue(v) + (EncodeTail(o.tokenData, o.script) + rest);
  }

  lemma {:induction false} PositiveValue(v: nat)
    ensures InRangeValue(v) ==> v > 0
  {
  }

  // ---- lists

  function JoinInputs(inputs: seq<TxInput>): bytes {
    if inputs == [] then [] else EncodeInput(inputs[0]) + JoinInputs(inputs[1..])
  }

  function ReadInputs(b: bytes, n: nat): Option<(seq<TxInput>, bytes)>
    decreases n
  {
    if n == 0 then Some(([], b))
    else
      var (i, b1) :- ReadInput(b);
      var (more, rest) :- ReadInputs(b1, n - 1);
      Some(([i] + more, rest))
  }

  predicate AllInputs(inputs: seq<TxInput>) { forall i | i in inputs :: InRangeInput(i) }

  predicate AllOutputs(outputs: seq<TxOutput>) { forall o | o in outputs :: InRangeOutput(o) }

  lemma {:induction false} InputsBack(inputs: seq<TxInput>, rest: bytes)
    requires AllInputs(inputs)
    ensures ReadInputs(JoinInputs(inputs) + rest, |inputs|) == Some((inputs, rest))
    decreases |inputs|
  {
    hide ReadInput, EncodeInput;
    if inputs == [] {
      assert JoinInputs(inputs) + rest == rest;
    } else {
      var tail := JoinInputs(inputs[1..]) + rest;
      assert JoinInputs(inputs) + rest == EncodeInput(inputs[0]) + tail;
      InputBack(inputs[0], tail);
      InputsBack(inputs[1..], rest);
      assert [inputs[0]] + inputs[1..] == inputs;
    }
  }

  lemma {:induction false} InputsWrote(b: bytes, n: nat)
    requires ReadInputs(b, n).Some?
    ensures var (inputs, rest) := ReadInputs(b, n).value;
            |inputs| == n && AllInputs(inputs) && (rest != [] ==> JoinInputs(inputs) + rest == b)
    decreases n
  {
    hide ReadInput, EncodeInput, InRangeInput;
    if n == 0 {
      assert JoinInputs([]) + b == b;
    } else {
      var (i, b1) := ReadInput(b).value;
      InputWrote(b);
      InputsWrote(b1, n - 1);
      var (more, rest) := ReadInputs(b1, n - 1).value;
      var all := [i] + more;
      assert all[1..] == more;
      assert rest != [] ==> JoinInputs(all) + rest == EncodeInput(i) + (JoinInputs(more) + rest);
    }
  }

  function JoinOutputs(outputs: seq<TxOutput>): bytes
    requires AllOutputs(outputs)
  {
    if outputs == [] then [] else EncodeOutput(outputs[0]) + JoinOutputs(outputs[1..])
  }

  function ReadOutputs(b: bytes, n: nat): Option<(seq<TxOutput>, bytes)>
    decreases n
  {
    if n == 0 then Some(([], b))
    else
      var (o, b1) :- ReadOutput(b);
      var (more, rest) :- ReadOutputs(b1, n - 1);
      Some(([o] + more, rest))
  }

  lemma {:induction false} OutputsBack(outputs: seq<TxOutput>, rest: bytes)
    requires AllOutputs(outputs)
    ensures ReadOutputs(JoinOutputs(outputs) + rest, |outputs|) == Some((outputs, rest))
    decreases |outputs|
  {
    hide ReadOutput, EncodeOutput, InRangeOutput;
    if outputs == [] {
      assert JoinOutputs(outputs) + rest == rest;
    } else {
      hide JoinOutputs;
      var o, more := outputs[0], outputs[1..];
      assert outputs == [o] + more;
      OneOutputMore([], o, [], more, rest);
      OutputBack(o, JoinOutputs(more) + rest);
      OutputsBack(more, rest);
    }
  }

  /** Whether one of the next `n` outputs holds the largest four-byte value in eight bytes. */
  predicate HoldsWideMax(b: bytes, n: nat)
    decreases n
  {
    n > 0 && ReadOutput(b).Some? && (IsWideMax(b) || HoldsWideMax(ReadOutput(b).value.1, n - 1))
  }

  lemma {:induction false} OutputsWrote(b: bytes, n: nat)
    requires ReadOutputs(b, n).Some?
    ensures var (outputs, rest) := ReadOutputs(b, n).value;
            && |outputs| == n && AllOutputs(outputs)
            && (rest != [] ==> if HoldsWideMax(b, n) then |JoinOutputs(outputs) + rest| < |b| else JoinOutputs(outputs) + rest == b)
    decreases n
  {
    hide ReadOutput, EncodeOutput, InRangeOutput, IsWideMax;
    if n == 0 {
      assert JoinOutputs([]) + b == b;
    } else {
      var (o, b1) := ReadOutput(b).value;
      OutputWrote(b);
      OutputsWrote(b1, n - 1);
      var (more, rest) := ReadOutputs(b1, n - 1).value;
      var all := [o] + more;
      assert all[1..] == more && AllOutputs(all);
      OneOutputMore(b, o, b1, more, rest);
    }
  }

  lemma {:induction false} OneOutputMore(b: bytes, o: TxOutput, b1: bytes, more: seq<TxOutput>, rest: bytes)
    requires AllOutputs([o] + more) && AllOutputs(more) && InRangeOutput(o)
    ensures JoinOutputs([o] + more) + rest == EncodeOutput(o) + (JoinOutputs(more) + rest)
    ensures |JoinOutputs(more) + rest| < |b1| && |EncodeOutput(o) + b1| <= |b| ==> |JoinOutputs([o] + more) + rest| < |b|
    ensures |JoinOutputs(more) + rest| <= |b1| && |EncodeOutput(o) + b1| < |b| ==> |JoinOutputs([o] + more) + rest| < |b|
  {
    assert ([o] + more)[1..] == more;
  }

  // ---- the graph fields

  predicate InRangeGraph(g: Graph) {
    |g.weight| == 8 && g.timestamp < 0x1_0000_0000 && |g.parents| < 0x100 && AllHashes(g.parents)
  }

  function EncodeGraph(g: Graph): bytes {
    g.weight + ToBig(g.timestamp, 4) + ToBig(|g.parents|, 1) + JoinHashes(g.parents)
  }

  function ReadGraph(b: bytes): Option<(Graph, bytes)> {
    if |b| < 8 then None
    else
      var (timestamp, b1) :- ReadBig(b[8..], 4);
      var (n, b2) :- ReadBig(b1, 1);
      var (parents, rest) := ReadHashes(b2, n);
      Some((Graph(b[..8], timestamp, parents), rest))
  }

  lemma {:induction false} GraphBack(g: Graph, rest: bytes)
    requires InRangeGraph(g)
    ensures ReadGraph(EncodeGraph(g) + rest) == Some((g, rest))
  {
    hide ReadHashes, JoinHashes, ToBig, ReadBig;
    Pow256Values();
    var hashes := JoinHashes(g.parents) + rest;
    assert EncodeGraph(g) + rest == g.weight + (ToBig(g.timestamp, 4) + (ToBig(|g.parents|, 1) + hashes));
    TakeDrop(g.weight, ToBig(g.timestamp, 4) + (ToBig(|g.parents|, 1) + hashes));
    ReadBigOf(g.timestamp, 4, ToBig(|g.parents|, 1) + hashes);
    ReadBigOf(|g.parents|, 1, hashes);
    HashesBack(g.parents, rest);
  }

  lemma {:induction false} GraphWrote(b: bytes)
    requires ReadGraph(b).Some?
    ensures var (g, rest) := ReadGraph(b).value;
            b != [] && (rest != [] ==> InRangeGraph(g) && EncodeGraph(g) + rest == b)
  {
    hide ReadHashes, JoinHashes, ToBig;
    Pow256Values();
    var b1 := b[8..];
    ReadBigWrote(b1, 4);
    var b2 := b1[4..];
    ReadBigWrote(b2, 1);
    HashesWrote(b2[1..], FromBig(b2[..1]));
    var (g, rest) := ReadGraph(b).value;
    if rest != [] {
      assert EncodeGraph(g) + rest == g.weight + (ToBig(g.timestamp, 4) + (ToBig(|g.parents|, 1) + (JoinHashes(g.parents) + rest)));
    }
  }

  // ---- transactions

  predicate InRange(t: Transaction) {
    && t.version < 0x1_0000 && |t.tokens| < 0x100 && |t.inputs| < 0x100 && |t.outputs| < 0x100
    && AllHashes(t.tokens) && AllInputs(t.inputs) && AllOutputs(t.outputs) && InRangeGraph(t.graph) && t.nonce < 0x1_0000_0000
  }

  datatype Counts = Counts(version: nat, tokens: nat, inputs: nat, outputs: nat)

  function EncodeCounts(c: Counts): bytes { ToBig(c.version, 2) + ToBig(c.tokens, 1) + ToBig(c.inputs, 1) + ToBig(c.outputs, 1) }

  function ReadCounts(b: bytes): Option<(Counts, bytes)> {
    var (version, b1) :- ReadBig(b, 2);
    var (tokens, b2) :- ReadBig(b1, 1);
    var (inputs, b3) :- ReadBig(b2, 1);
    var (outputs, b4) :- ReadBig(b3, 1);
    Some((Counts(version, tokens, inputs, outputs), b4))
  }

  lemma {:induction false} CountsBack(c: Counts, rest: bytes)
    requires c.version < 0x1_0000 && c.tokens < 0x100 && c.inputs < 0x100 && c.outputs < 0x100
    ensures ReadCounts(EncodeCounts(c) + rest) == Some((c, rest))
  {
    hide ToBig, ReadBig;
    Pow256Values();
    var b3 := ToBig(c.outputs, 1) + rest;
    var b2 := ToBig(c.inputs, 1) + b3;
    var b1 := ToBig(c.tokens, 1) + b2;
    assert EncodeCounts(c) + rest == ToBig(c.version, 2) + b1;
    ReadBigOf(c.version, 2, b1);
    ReadBigOf(c.tokens, 1, b2);
    ReadBigOf(c.inputs, 1, b3);
    ReadBigOf(c.outputs, 1, rest);
  }

  lemma {:induction false} CountsWrote(b: bytes)
    requires ReadCounts(b).Some?
    ensures var (c, rest) := ReadCounts(b).value;
            && c.version < 0x1_0000 && c.tokens < 0x100 && c.inputs < 0x100 && c.outputs < 0x100
            && EncodeCounts(c) + rest == b
  {
    hide ToBig;
    Pow256Values();
    ReadBigWrote(b, 2);
    ReadBigWrote(b[2..], 1);
    ReadBigWrote(b[2..][1..], 1);
    ReadBigWrote(b[2..][1..][1..], 1);
    var (c, rest) := ReadCounts(b).value;
    assert EncodeCounts(c) + rest == ToBig(c.version, 2) + (ToBig(c.tokens, 1) + (ToBig(c.inputs, 1) + (ToBig(c.outputs, 1) + rest)));
  }

  function CountsOf(t: Transaction): Counts { Counts(t.version, |t.tokens|, |t.inputs|, |t.outputs|) }

  function GetStruct(t: Transaction): bytes
    requires InRange(t)
  {
    EncodeCounts(CountsOf(t)) + JoinHashes(t.tokens) + JoinInputs(t.inputs) + JoinOutputs(t.outputs) + EncodeGraph(t.graph) + ToBig(t.nonce, 4)
  }

  function CreateFromStruct(b: bytes): Option<Transaction> {
    var (c, b1) :- ReadCounts(b);
    var (tokens, b2) := ReadHashes(b1, c.tokens);
    var (inputs, b3) :- ReadInputs(b2, c.inputs);
    var (outputs, b4) :- ReadOutputs(b3, c.outputs);
    var (graph, b5) :- ReadGraph(b4);
    if |b5| != 4 then None else Some(Transaction(c.version, tokens, inputs, outputs, graph, FromBig(b5)))
  }

  lemma {:induction false} TransactionRoundTrip(t: Transaction)
    requires InRange(t)
    ensures CreateFromStruct(GetStruct(t)) == Some(t)
  {
    hide EncodeCounts, ReadCounts, JoinHashes, ReadHashes, JoinInputs, ReadInputs, JoinOutputs, ReadOutputs, EncodeGraph, ReadGraph, ToBig, FromBig;
    Pow256Values();
    var nonce := ToBig(t.nonce, 4);
    var b4 := EncodeGraph(t.graph) + nonce;
    var b3 := JoinOutputs(t.outputs) + b4;
    var b2 := JoinInputs(t.inputs) + b3;
    var b1 := JoinHashes(t.tokens) + b2;
    assert GetStruct(t) == EncodeCounts(CountsOf(t)) + b1;
    CountsBack(CountsOf(t), b1);
    HashesBack(t.tokens, b2);
    InputsBack(t.inputs, b3);
    OutputsBack(t.outputs, b4);
    GraphBack(t.graph, nonce);
    BigRoundTrip(t.nonce, 4);
  }

  /** Where the outputs start in the bytes of a transaction, and how many there are. */
  function OutputsAt(b: bytes): Option<(nat, bytes)> {
    var (c, b1) :- ReadCounts(b);
    var (inputs, b3) :- ReadInputs(ReadHashes(b1, c.tokens).1, c.inputs);
    Some((c.outputs, b3))
  }

  /** Any accepted bytes are those of an in-range transaction, and they are what it serialises to
      exactly unless an output holds the largest four-byte value in eight bytes. */
  lemma {:induction false} TransactionIsCanonicalIff(b: bytes)
    requires CreateFromStruct(b).Some?
    ensures InRange(CreateFromStruct(b).value) && OutputsAt(b).Some?
    ensures GetStruct(CreateFromStruct(b).value) == b <==> !HoldsWideMax(OutputsAt(b).value.1, OutputsAt(b).value.0)
  {
    hide EncodeCounts, ReadCounts, JoinHashes, ReadHashes, JoinInputs, ReadInputs, JoinOutputs, ReadOutputs, EncodeGraph, ReadGraph, ToBig, FromBig,
      HoldsWideMax, AllHashes, AllInputs, AllOutputs, InRangeGraph;
    Pow256Values();
    var (c, b1) := ReadCounts(b).value;
    var (tokens, b2) := ReadHashes(b1, c.tokens);
    var (inputs, b3) := ReadInputs(b2, c.inputs).value;
    var (outputs, b4) := ReadOutputs(b3, c.outputs).value;
    var (graph, b5) := ReadGraph(b4).value;
    BigIsCanonical(b5);
    GraphWrote(b4);
    OutputsWrote(b3, c.outputs);
    assert b3 != [] by { NotEmptied(b3, c.outputs); }
    InputsWrote(b2, c.inputs);
    assert b2 != [];
    HashesWrote(b1, c.tokens);
    CountsWrote(b);
    Assembled(c, tokens, inputs, outputs, graph, FromBig(b5), b, b1, b2, b3, b4, b5);
  }

  lemma {:induction false} NotEmptied(b: bytes, n: nat)
    requires ReadOutputs(b, n).Some? && ReadOutputs(b, n).value.1 != []
    ensures b != []
  {
  }

  lemma {:induction false} Assembled(c: Counts, tokens: seq<bytes>, inputs: seq<TxInput>, outputs: seq<TxOutput>, graph: Graph, nonce: nat,
                                     b: bytes, b1: bytes, b2: bytes, b3: bytes, b4: bytes, b5: bytes)
    requires c == Counts(c.version, |tokens|, |inputs|, |outputs|) && InRange(Transaction(c.version, tokens, inputs, outputs, graph, nonce))
    requires b == EncodeCounts(c) + b1 && b1 == JoinHashes(tokens) + b2 && b2 == JoinInputs(inputs) + b3
    requires b4 == EncodeGraph(graph) + b5 && b5 == ToBig(nonce, 4)
    ensures b3 == JoinOutputs(outputs) + b4 ==> GetStruct(Transaction(c.version, tokens, inputs, outputs, graph, nonce)) == b
    ensures |JoinOutputs(outputs) + b4| < |b3| ==> |GetStruct(Transaction(c.version, tokens, inputs, outputs, graph, nonce))| < |b|
  {
    hide EncodeCounts, JoinHashes, JoinInputs, JoinOutputs, EncodeGraph, ToBig;
    var t := Transaction(c.version, tokens, inputs, outputs, graph, nonce);
    assert GetStruct(t) == EncodeCounts(c) + (JoinHashes(tokens) + (JoinInputs(inputs) + (JoinOutputs(outputs) + b4)));
  }

  /** The largest four-byte value in eight bytes: 2^64 - (2^31 - 1). */
  const WIDE_MAX: bytes := [0xff, 0xff, 0xff, 0xff, 0x80, 0, 0, 1]

  const WIDE_OUTPUT: bytes := WIDE_MAX + EncodeTail(0, [])

  const PLAIN_GRAPH := Graph([0, 0, 0, 0, 0, 0, 0, 0], 0, [])

  lemma {:induction false} WideMaxIs()
    ensures FromBig(WIDE_MAX) == 0xffff_ffff_8000_0001
  {
    assert FromBig([0xff, 0xff]) == 0xffff;
    assert [0xff, 0xff, 0xff, 0xff][..3] == [0xff, 0xff, 0xff] && [0xff, 0xff, 0xff][..2] == [0xff, 0xff];
    assert FromBig([0xff, 0xff, 0xff, 0xff]) == 0xffff_ffff;
    assert [0xff, 0xff, 0xff, 0xff, 0x80, 0][..5] == [0xff, 0xff, 0xff, 0xff, 0x80] && [0xff, 0xff, 0xff, 0xff, 0x80][..4] == [0xff, 0xff, 0xff, 0xff];
    assert FromBig([0xff, 0xff, 0xff, 0xff, 0x80, 0]) == 0xffff_ffff_8000;
    assert WIDE_MAX[..7] == [0xff, 0xff, 0xff, 0xff, 0x80, 0, 0] && WIDE_MAX[..7][..6] == [0xff, 0xff, 0xff, 0xff, 0x80, 0];
  }

  lemma {:induction false} WideIsRead(rest: bytes)
    ensures ReadOutput(WIDE_OUTPUT + rest) == Some((TxOutput(MAX_OUTPUT_VALUE_32, 0, []), rest)) && IsWideMax(WIDE_OUTPUT + rest)
    ensures ReadOutputs(WIDE_OUTPUT + rest, 1) == Some(([TxOutput(MAX_OUTPUT_VALUE_32, 0, [])], rest)) && HoldsWideMax(WIDE_OUTPUT + rest, 1)
  {
    hide ReadTail, EncodeTail, FromBig;
    WideMaxIs();
    Pow256Values();
    var tail := EncodeTail(0, []) + rest;
    assert WIDE_OUTPUT + rest == WIDE_MAX + tail;
    TakeDrop(WIDE_MAX, tail);
    TailBack(0, [], rest);
    assert ReadOutputs(rest, 0) == Some(([], rest));
    assert [TxOutput(MAX_OUTPUT_VALUE_32, 0, [])] + [] == [TxOutput(MAX_OUTPUT_VALUE_32, 0, [])];
  }

  /** A transaction of one output whose bytes are accepted and are not what it serialises to. */
  lemma {:induction false} WideTransaction() returns (b: bytes)
    ensures CreateFromStruct(b).Some? && InRange(CreateFromStruct(b).value) && GetStruct(CreateFromStruct(b).value) != b
  {
    hide EncodeCounts, ReadCounts, ReadHashes, ReadInputs, ReadOutputs, EncodeGraph, ReadGraph, ToBig, FromBig, HoldsWideMax, WIDE_OUTPUT, GetStruct, InRange;
    Pow256Values();
    var c, nonce := Counts(1, 0, 0, 1), ToBig(0, 4);
    var b4 := EncodeGraph(PLAIN_GRAPH) + nonce;
    var b3 := WIDE_OUTPUT + b4;
    b := EncodeCounts(c) + b3;
    CountsBack(c, b3);
    assert ReadHashes(b3, 0) == ([], b3) && ReadInputs(b3, 0) == Some(([], b3)) by { NoneToRead(b3); }
    WideIsRead(b4);
    GraphBack(PLAIN_GRAPH, nonce);
    TransactionIsCanonicalIff(b);
  }

  lemma {:induction false} NoneToRead(b: bytes)
    ensures ReadHashes(b, 0) == ([], b) && ReadInputs(b, 0) == Some(([], b))
  {
  }

  // ---- more bytes behind what was read do not change what was read

  lemma {:induction false} SliceMore(b: bytes, n: nat, extra: bytes)
    requires Slice(b, n).1 != []
    ensures Slice(b + extra, n) == (Slice(b, n).0, Slice(b, n).1 + extra)
  {
    assert (b + extra)[..n] == b[..n] && (b + extra)[n..] == b[n..] + extra;
  }

  lemma {:induction false} ReadBigMore(b: bytes, n: nat, extra: bytes)
    requires n <= |b|
    ensures ReadBig(b + extra, n) == Some((ReadBig(b, n).value.0, ReadBig(b, n).value.1 + extra))
  {
    assert (b + extra)[..n] == b[..n] && (b + extra)[n..] == b[n..] + extra;
  }

  lemma {:induction false} HashesMore(b: bytes, n: nat, extra: bytes)
    requires ReadHashes(b, n).1 != []
    ensures ReadHashes(b + extra, n) == (ReadHashes(b, n).0, ReadHashes(b, n).1 + extra)
    decreases n
  {
    if n > 0 {
      var b1 := Slice(b, 32).1;
      HashesWrote(b1, n - 1);
      SliceMore(b, 32, extra);
      HashesMore(b1, n - 1, extra);
    }
  }

  lemma {:induction false} TailMore(b: bytes, extra: bytes)
    requires ReadTail(b).Some? && ReadTail(b).value.2 != []
    ensures var (x, data, rest) := ReadTail(b).value; ReadTail(b + extra) == Some((x, data, rest + extra))
  {
    hide Slice, FromBig;
    ReadBigMore(b, 1, extra);
    ReadBigMore(b[1..], 2, extra);
    SliceMore(b[1..][2..], FromBig(b[1..][..2]), extra);
  }

  lemma {:induction false} InputsMore(b: bytes, n: nat, extra: bytes)
    requires ReadInputs(b, n).Some? && ReadInputs(b, n).value.1 != []
    ensures ReadInputs(b + extra, n) == Some((ReadInputs(b, n).value.0, ReadInputs(b, n).value.1 + extra))
    decreases n
  {
    hide ReadTail;
    if n > 0 {
      var b1 := ReadInput(b).value.1;
      InputsWrote(b1, n - 1);
      TailMore(Slice(b, 32).1, extra);
      TailWrote(Slice(b, 32).1);
      SliceMore(b, 32, extra);
      InputsMore(b1, n - 1, extra);
    }
  }

  lemma {:induction false} ValueMore(b: bytes, extra: bytes)
    requires ReadValue(b).Some?
    ensures ReadValue(b + extra) == Some((ReadValue(b).value.0, ReadValue(b).value.1 + extra))
  {
    ReadBigMore(b, if b[0] >= 0x80 then 8 else 4, extra);
  }

  lemma {:induction false} OutputsMore(b: bytes, n: nat, extra: bytes)
    requires ReadOutputs(b, n).Some? && ReadOutputs(b, n).value.1 != []
    ensures ReadOutputs(b + extra, n) == Some((ReadOutputs(b, n).value.0, ReadOutputs(b, n).value.1 + extra))
    decreases n
  {
    hide ReadTail, ReadValue;
    if n > 0 {
      var b1 := ReadOutput(b).value.1;
      NotEmptied(b1, n - 1);
      ValueMore(b, extra);
      TailMore(ReadValue(b).value.1, extra);
      OutputsMore(b1, n - 1, extra);
    }
  }

  lemma {:induction false} GraphMore(b: bytes, extra: bytes)
    requires ReadGraph(b).Some? && ReadGraph(b).value.1 != []
    ensures ReadGraph(b + extra) == Some((ReadGraph(b).value.0, ReadGraph(b).value.1 + extra))
  {
    hide ReadHashes, FromBig;
    var b1 := b[8..];
    assert (b + extra)[..8] == b[..8] && (b + extra)[8..] == b1 + extra;
    ReadBigMore(b1, 4, extra);
    ReadBigMore(b1[4..], 1, extra);
    HashesMore(b1[4..][1..], FromBig(b1[4..][..1]), extra);
  }

  lemma {:induction false} CountsMore(b: bytes, extra: bytes)
    requires ReadCounts(b).Some?
    ensures ReadCounts(b + extra) == Some((ReadCounts(b).value.0, ReadCounts(b).value.1 + extra))
  {
    hide FromBig;
    ReadBigMore(b, 2, extra);
    ReadBigMore(b[2..], 1, extra);
    ReadBigMore(b[2..][1..], 1, extra);
    ReadBigMore(b[2..][1..][1..], 1, extra);
  }

  /** No accepted byte string is another one cut short. */
  lemma {:induction false} TruncatedTransactionIsRejected(b: bytes, extra: bytes)
    requires extra != [] && CreateFromStruct(b + extra).Some?
    ensures CreateFromStruct(b) == None
  {
    hide ReadCounts, ReadHashes, ReadInputs, ReadOutputs, ReadGraph, FromBig;
    if CreateFromStruct(b).Some? {
      var (c, b1) := ReadCounts(b).value;
      var (tokens, b2) := ReadHashes(b1, c.tokens);
      var (inputs, b3) := ReadInputs(b2, c.inputs).value;
      var (outputs, b4) := ReadOutputs(b3, c.outputs).value;
      GraphWrote(b4);
      NotEmptied(b3, c.outputs);
      InputsWrote(b2, c.inputs);
      CountsMore(b, extra);
      HashesMore(b1, c.tokens, extra);
      InputsMore(b2, c.inputs, extra);
      OutputsMore(b3, c.outputs, extra);
      GraphMore(b4, extra);
      assert false;
    }
  }

  // ---- blocks

  predicate InRangeBlock(k: Block) {
    && k.version < 0x1_0000 && |k.outputs| < 0x100 && AllOutputs(k.outputs) && InRangeGraph(k.graph)
    && |k.data| < 0x100 && k.nonce < Pow256(16)
  }

  function EncodeFunds(k: Block): bytes
    requires AllOutputs(k.outputs)
  {
    ToBig(k.version, 2) + ToBig(|k.outputs|, 1) + JoinOutputs(k.outputs)
  }

  function GetBlockStruct(k: Block): bytes
    requires InRangeBlock(k)
  {
    EncodeFunds(k) + (EncodeGraph(k.graph) + ToBig(|k.data|, 1) + k.data) + ToBig(k.nonce, 16)
  }

  function CreateBlockFromStruct(b: bytes): Option<Block> {
    var (version, b1) :- ReadBig(b, 2);
    var (n, b2) :- ReadBig(b1, 1);
    var (outputs, b3) :- ReadOutputs(b2, n);
    var (graph, b4) :- ReadGraph(b3);
    var (size, b5) :- ReadBig(b4, 1);
    var (data, b6) := Slice(b5, size);
    if |b6| != 16 then None else Some(Block(version, outputs, graph, data, FromBig(b6)))
  }

  lemma {:induction false} BlockRoundTrip(k: Block)
    requires InRangeBlock(k)
    ensures CreateBlockFromStruct(GetBlockStruct(k)) == Some(k)
  {
    hide JoinOutputs, ReadOutputs, EncodeGraph, ReadGraph, ToBig, FromBig, ReadBig;
    Pow256Values();
    var nonce := ToBig(k.nonce, 16);
    var b4 := ToBig(|k.data|, 1) + (k.data + nonce);
    var b3 := EncodeGraph(k.graph) + b4;
    var b2 := JoinOutputs(k.outputs) + b3;
    assert GetBlockStruct(k) == ToBig(k.version, 2) + (ToBig(|k.outputs|, 1) + b2);
    ReadBigOf(k.version, 2, ToBig(|k.outputs|, 1) + b2);
    ReadBigOf(|k.outputs|, 1, b2);
    OutputsBack(k.outputs, b3);
    GraphBack(k.graph, b4);
    ReadBigOf(|k.data|, 1, k.data + nonce);
    TakeDrop(k.data, nonce);
    BigRoundTrip(k.nonce, 16);
  }

  lemma {:induction false} BlockIsCanonicalIff(b: bytes)
    requires CreateBlockFromStruct(b).Some?
    ensures InRangeBlock(CreateBlockFromStruct(b).value) && |b| >= 3
    ensures GetBlockStruct(CreateBlockFromStruct(b).value) == b <==> !HoldsWideMax(b[3..], FromBig(b[2..3]))
  {
    hide JoinOutputs, ReadOutputs, EncodeGraph, ReadGraph, ToBig, FromBig, HoldsWideMax, AllHashes, AllOutputs;
    Pow256Values();
    ReadBigWrote(b, 2);
    ReadBigWrote(b[2..], 1);
    assert b[2..][..1] == b[2..3] && b[2..][1..] == b[3..];
    var n, b2 := FromBig(b[2..3]), b[3..];
    var (outputs, b3) := ReadOutputs(b2, n).value;
    var (graph, b4) := ReadGraph(b3).value;
    ReadBigWrote(b4, 1);
    var (data, b6) := Slice(b4[1..], FromBig(b4[..1]));
    BigIsCanonical(b6);
    GraphWrote(b3);
    OutputsWrote(b2, n);
    var k := CreateBlockFromStruct(b).value;
    assert b4 == ToBig(|data|, 1) + (data + b6);
    AssembledBlock(k, b, b2, b3, b4, b6);
  }

  /** A block of one output whose bytes are accepted and are not what it serialises to. */
  lemma {:induction false} WideBlock() returns (b: bytes)
    ensures CreateBlockFromStruct(b).Some? && InRangeBlock(CreateBlockFromStruct(b).value) && GetBlockStruct(CreateBlockFromStruct(b).value) != b
  {
    hide ReadOutputs, EncodeGraph, ReadGraph, ToBig, FromBig, ReadBig, HoldsWideMax, WIDE_OUTPUT, GetBlockStruct, InRangeBlock;
    Pow256Values();
    var nonce := ToBig(0, 16);
    var b4 := ToBig(0, 1) + ([] + nonce);
    var b3 := EncodeGraph(PLAIN_GRAPH) + b4;
    var b2 := WIDE_OUTPUT + b3;
    b := ToBig(0, 2) + (ToBig(1, 1) + b2);
    ReadBigOf(0, 2, ToBig(1, 1) + b2);
    ReadBigOf(1, 1, b2);
    WideIsRead(b3);
    GraphBack(PLAIN_GRAPH, b4);
    ReadBigOf(0, 1, [] + nonce);
    TakeDrop([], nonce);
    BlockIsCanonicalIff(b);
    TakeDrop(ToBig(0, 2), ToBig(1, 1) + b2);
    TakeDrop(ToBig(1, 1), b2);
    BigRoundTrip(1, 1);
    assert b[2..3] == ToBig(1, 1) && b[3..] == b2;
  }

  lemma {:induction false} AssembledBlock(k: Block, b: bytes, b2: bytes, b3: bytes, b4: bytes, b6: bytes)
    requires InRangeBlock(k) && b == ToBig(k.version, 2) + (ToBig(|k.outputs|, 1) + b2) && b3 == EncodeGraph(k.graph) + b4
    requires b4 == ToBig(|k.data|, 1) + (k.data + b6) && b6 == ToBig(k.nonce, 16)
    ensures b2 == JoinOutputs(k.outputs) + b3 ==> GetBlockStruct(k) == b
    ensures |JoinOutputs(k.outputs) + b3| < |b2| ==> |GetBlockStruct(k)| < |b|
  {
    hide JoinOutputs, EncodeGraph, ToBig;
    assert GetBlockStruct(k) == ToBig(k.version, 2) + (ToBig(|k.outputs|, 1) + (JoinOutputs(k.outputs) + (EncodeGraph(k.graph) + (ToBig(|k.data|, 1) + (k.data + b6)))));
  }

  lemma {:induction false} TruncatedBlockIsRejected(b: bytes, extra: bytes)
    requires extra != [] && CreateBlockFromStruct(b + extra).Some?
    ensures CreateBlockFromStruct(b) == None
  {
    hide ReadOutputs, ReadGraph, FromBig;
    if CreateBlockFromStruct(b).Some? {
      var b2, n := b[2..][1..], FromBig(b[2..][..1]);
      var (outputs, b3) := ReadOutputs(b2, n).value;
      var (graph, b4) := ReadGraph(b3).value;
      GraphWrote(b3);
      ReadBigMore(b, 2, extra);
      ReadBigMore(b[2..], 1, extra);
      OutputsMore(b2, n, extra);
      GraphMore(b3, extra);
      ReadBigMore(b4, 1, extra);
      SliceMore(b4[1..], FromBig(b4[..1]), extra);
      assert false;
    }
  }
}
