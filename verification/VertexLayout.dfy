/** Where each field of a transaction or block is in its bytes. Numbers are big-endian; an output
    value takes four bytes, or eight for what four cannot hold, and is negated then. */
module VertexLayout {
  import opened Collections
  import opened Bytes
  import opened VertexCodec

  // ---- sizes and places

  function InputSize(i: TxInput): nat { 32 + 1 + 2 + |i.data| }

  function ValueSize(v: nat): nat { if v > MAX_OUTPUT_VALUE_32 then 8 else 4 }

  function OutputSize(o: TxOutput): nat { ValueSize(o.value) + 1 + 2 + |o.script| }

  function InputsSize(inputs: seq<TxInput>): nat {
    if inputs == [] then 0 else InputSize(inputs[0]) + InputsSize(inputs[1..])
  }

  function OutputsSize(outputs: seq<TxOutput>): nat {
    if outputs == [] then 0 else OutputSize(outputs[0]) + OutputsSize(outputs[1..])
  }

  ghost predicate HashesAt(b: bytes, p: nat, hashes: seq<bytes>) {
    forall k | 0 <= k < |hashes| :: FieldAt(b, p + 32 * k, hashes[k])
  }

  ghost predicate InputAt(b: bytes, p: nat, i: TxInput) {
    && FieldAt(b, p, i.txId) && i.index < 256 && FieldAt(b, p + 32, [i.index])
    && FieldAt(b, p + 33, BigEndian(|i.data|, 2)) && FieldAt(b, p + 35, i.data)
  }

  ghost predicate OutputAt(b: bytes, p: nat, o: TxOutput) {
    && InRangeValue(o.value) && o.tokenData < 256
    && FieldAt(b, p, if ValueSize(o.value) == 8 then BigEndian(0x1_0000_0000_0000_0000 - o.value, 8) else BigEndian(o.value, 4))
    && FieldAt(b, p + ValueSize(o.value), [o.tokenData])
    && FieldAt(b, p + ValueSize(o.value) + 1, BigEndian(|o.script|, 2))
    && FieldAt(b, p + ValueSize(o.value) + 3, o.script)
  }

  ghost predicate InputsAt(b: bytes, p: nat, inputs: seq<TxInput>) {
    forall k | 0 <= k < |inputs| :: InputAt(b, p + InputsSize(inputs[..k]), inputs[k])
  }

  ghost predicate OutputsAt(b: bytes, p: nat, outputs: seq<TxOutput>) {
    forall k | 0 <= k < |outputs| :: OutputAt(b, p + OutputsSize(outputs[..k]), outputs[k])
  }

  function GraphSize(g: Graph): nat { 8 + 4 + 1 + 32 * |g.parents| }

  ghost predicate GraphAt(b: bytes, p: nat, g: Graph) {
    && FieldAt(b, p, g.weight) && FieldAt(b, p + 8, BigEndian(g.timestamp, 4))
    && |g.parents| < 256 && FieldAt(b, p + 12, [|g.parents|]) && HashesAt(b, p + 13, g.parents)
  }

  // ---- one part

  lemma {:induction false} HashesPlaced(hashes: seq<bytes>)
    requires AllHashes(hashes)
    ensures |JoinHashes(hashes)| == 32 * |hashes| && HashesAt(JoinHashes(hashes), 0, hashes)
    decreases |hashes|
  {
    if hashes != [] {
      var h, more := hashes[0], JoinHashes(hashes[1..]);
      HashesPlaced(hashes[1..]);
      forall k | 0 < k < |hashes| ensures FieldAt(h + more, 32 * k, hashes[k]) {
        assert FieldAt(more, 32 * (k - 1), hashes[1..][k - 1]);
        FieldMoves(h, more, [], 32 * (k - 1), hashes[k]);
        assert h + more + [] == h + more;
      }
    }
  }

  lemma {:induction false} TailPlaced(front: bytes, x: nat, data: bytes)
    requires x < 256 && |data| < 0x1_0000
    ensures var b := front + EncodeTail(x, data);
            && |b| == |front| + 3 + |data| && FieldAt(b, |front|, [x])
            && FieldAt(b, |front| + 1, BigEndian(|data|, 2)) && FieldAt(b, |front| + 3, data)
  {
    hide ToBig, BigEndian;
    OneByte(x);
    BigIsBigEndian(|data|, 2);
    var n := BigEndian(|data|, 2);
    var b := front + EncodeTail(x, data);
    assert b == front + [x] + (n + data);
    assert b == (front + [x]) + n + data;
    assert b == (front + [x] + n) + data + [];
    FieldPut(front, [x], n + data);
    FieldPut(front + [x], n, data);
    FieldPut(front + [x] + n, data, []);
  }

  lemma {:induction false} InputPlaced(i: TxInput)
    requires InRangeInput(i)
    ensures |EncodeInput(i)| == InputSize(i) && InputAt(EncodeInput(i), 0, i)
  {
    TailPlaced(i.txId, i.index, i.data);
  }

  lemma {:induction false} OutputPlaced(o: TxOutput)
    requires InRangeOutput(o)
    ensures |EncodeOutput(o)| == OutputSize(o) && OutputAt(EncodeOutput(o), 0, o)
  {
    hide ToBig, BigEndian, EncodeTail;
    Pow256Values();
    BigIsBigEndian(Pow256(8) - o.value, 8);
    BigIsBigEndian(o.value, 4);
    TailPlaced(EncodeValue(o.value), o.tokenData, o.script);
  }

  lemma {:induction false} InputMoves(a: bytes, b: bytes, c: bytes, p: nat, i: TxInput)
    requires InputAt(b, p, i)
    ensures InputAt(a + b + c, |a| + p, i)
  {
    hide FieldAt;
    FieldMoves(a, b, c, p, i.txId);
    FieldMoves(a, b, c, p + 32, [i.index]);
    FieldMoves(a, b, c, p + 33, BigEndian(|i.data|, 2));
    FieldMoves(a, b, c, p + 35, i.data);
  }

  lemma {:induction false} OutputMoves(a: bytes, b: bytes, c: bytes, p: nat, o: TxOutput)
    requires OutputAt(b, p, o)
    ensures OutputAt(a + b + c, |a| + p, o)
  {
    hide FieldAt, BigEndian;
    var v := ValueSize(o.value);
    FieldMoves(a, b, c, p, if v == 8 then BigEndian(0x1_0000_0000_0000_0000 - o.value, 8) else BigEndian(o.value, 4));
    FieldMoves(a, b, c, p + v, [o.tokenData]);
    FieldMoves(a, b, c, p + v + 1, BigEndian(|o.script|, 2));
    FieldMoves(a, b, c, p + v + 3, o.script);
  }

  lemma {:induction false} InputsPlaced(inputs: seq<TxInput>)
    requires AllInputs(inputs)
    ensures |JoinInputs(inputs)| == InputsSize(inputs) && InputsAt(JoinInputs(inputs), 0, inputs)
    decreases |inputs|
  {
    hide InputAt, EncodeInput, InputSize, InRangeInput;
    if inputs != [] {
      var i, rest := inputs[0], inputs[1..];
      var first, more := EncodeInput(i), JoinInputs(rest);
      InputPlaced(i);
      InputsPlaced(rest);
      assert first + more + [] == first + more && [] + first + more == first + more;
      forall k | 0 <= k < |inputs| ensures InputAt(first + more, InputsSize(inputs[..k]), inputs[k]) {
        if k == 0 {
          InputMoves([], first, more, 0, i);
        } else {
          assert inputs[..k][1..] == rest[..k - 1];
          assert InputAt(more, 0 + InputsSize(rest[..k - 1]), rest[k - 1]);
          InputMoves(first, more, [], InputsSize(rest[..k - 1]), inputs[k]);
        }
      }
    }
  }

  lemma {:induction false} OutputsPlaced(outputs: seq<TxOutput>)
    requires AllOutputs(outputs)
    ensures |JoinOutputs(outputs)| == OutputsSize(outputs) && OutputsAt(JoinOutputs(outputs), 0, outputs)
    decreases |outputs|
  {
    hide OutputAt, EncodeOutput, OutputSize, InRangeOutput;
    if outputs != [] {
      var o, rest := outputs[0], outputs[1..];
      var first, more := EncodeOutput(o), JoinOutputs(rest);
      OutputPlaced(o);
      OutputsPlaced(rest);
      assert first + more + [] == first + more && [] + first + more == first + more;
      forall k | 0 <= k < |outputs| ensures OutputAt(first + more, OutputsSize(outputs[..k]), outputs[k]) {
        if k == 0 {
          OutputMoves([], first, more, 0, o);
        } else {
          assert outputs[..k][1..] == rest[..k - 1];
          assert OutputAt(more, 0 + OutputsSize(rest[..k - 1]), rest[k - 1]);
          OutputMoves(first, more, [], OutputsSize(rest[..k - 1]), outputs[k]);
        }
      }
    }
  }

  lemma {:induction false} GraphPlaced(g: Graph)
    requires InRangeGraph(g)
    ensures |EncodeGraph(g)| == GraphSize(g) && GraphAt(EncodeGraph(g), 0, g)
  {
    hide ToBig, BigEndian, JoinHashes;
    OneByte(|g.parents|);
    BigIsBigEndian(g.timestamp, 4);
    HashesPlaced(g.parents);
    var t, n, hashes := BigEndian(g.timestamp, 4), [|g.parents|], JoinHashes(g.parents);
    var b := EncodeGraph(g);
    assert b == [] + g.weight + (t + n + hashes) && b == g.weight + t + (n + hashes);
    assert b == (g.weight + t) + n + hashes && b == (g.weight + t + n) + hashes + [];
    FieldPut([], g.weight, t + n + hashes);
    FieldPut(g.weight, t, n + hashes);
    FieldPut(g.weight + t, n, hashes);
    HashesMove(g.weight + t + n, hashes, [], 0, g.parents);
  }

  lemma {:induction false} HashesMove(a: bytes, b: bytes, c: bytes, p: nat, hashes: seq<bytes>)
    requires HashesAt(b, p, hashes)
    ensures HashesAt(a + b + c, |a| + p, hashes)
  {
    hide FieldAt;
    forall k | 0 <= k < |hashes| ensures FieldAt(a + b + c, |a| + p + 32 * k, hashes[k]) {
      FieldMoves(a, b, c, p + 32 * k, hashes[k]);
    }
  }

  lemma {:induction false} InputsMove(a: bytes, b: bytes, c: bytes, inputs: seq<TxInput>)
    requires InputsAt(b, 0, inputs)
    ensures InputsAt(a + b + c, |a|, inputs)
  {
    hide InputAt;
    forall k | 0 <= k < |inputs| ensures InputAt(a + b + c, |a| + InputsSize(inputs[..k]), inputs[k]) {
      assert InputAt(b, 0 + InputsSize(inputs[..k]), inputs[k]);
      InputMoves(a, b, c, InputsSize(inputs[..k]), inputs[k]);
    }
  }

  lemma {:induction false} OutputsMove(a: bytes, b: bytes, c: bytes, outputs: seq<TxOutput>)
    requires OutputsAt(b, 0, outputs)
    ensures OutputsAt(a + b + c, |a|, outputs)
  {
    hide OutputAt;
    forall k | 0 <= k < |outputs| ensures OutputAt(a + b + c, |a| + OutputsSize(outputs[..k]), outputs[k]) {
      assert OutputAt(b, 0 + OutputsSize(outputs[..k]), outputs[k]);
      OutputMoves(a, b, c, OutputsSize(outputs[..k]), outputs[k]);
    }
  }

  lemma {:induction false} GraphMoves(a: bytes, b: bytes, c: bytes, g: Graph)
    requires GraphAt(b, 0, g)
    ensures GraphAt(a + b + c, |a|, g)
  {
    hide FieldAt, BigEndian;
    FieldMoves(a, b, c, 0, g.weight);
    FieldMoves(a, b, c, 8, BigEndian(g.timestamp, 4));
    FieldMoves(a, b, c, 12, [|g.parents|]);
    HashesMove(a, b, c, 13, g.parents);
  }

  // ---- the whole

  function InputsStart(t: Transaction): nat { 5 + 32 * |t.tokens| }

  function OutputsStart(t: Transaction): nat { InputsStart(t) + InputsSize(t.inputs) }

  function GraphStart(t: Transaction): nat { OutputsStart(t) + OutputsSize(t.outputs) }

  lemma {:induction false} CountsPlaced(t: Transaction)
    requires InRange(t)
    ensures EncodeCounts(CountsOf(t)) == BigEndian(t.version, 2) + [|t.tokens|, |t.inputs|, |t.outputs|]
  {
    hide ToBig, BigEndian;
    BigIsBigEndian(t.version, 2);
    OneByte(|t.tokens|);
    OneByte(|t.inputs|);
    OneByte(|t.outputs|);
  }

  lemma {:induction false} Sizes(t: Transaction)
    requires InRange(t)
    ensures |EncodeCounts(CountsOf(t))| == 5 && |JoinHashes(t.tokens)| == 32 * |t.tokens| && |JoinInputs(t.inputs)| == InputsSize(t.inputs)
    ensures |JoinOutputs(t.outputs)| == OutputsSize(t.outputs) && |EncodeGraph(t.graph)| == GraphSize(t.graph)
  {
    hide JoinHashes, JoinInputs, JoinOutputs, EncodeGraph, GraphSize, HashesAt, InputsAt, OutputsAt, GraphAt;
    HashesPlaced(t.tokens);
    InputsPlaced(t.inputs);
    OutputsPlaced(t.outputs);
    GraphPlaced(t.graph);
  }

  lemma {:induction false} SplitFunds(a: bytes, b: bytes, c: bytes, d: bytes, e: bytes, f: bytes)
    ensures var whole := a + b + c + d + e + f;
            && whole == [] + a + (b + c + d + e + f) && whole == a + b + (c + d + e + f) && whole == (a + b) + c + (d + e + f)
  {
  }

  lemma {:induction false} SplitRest(a: bytes, b: bytes, c: bytes, d: bytes, e: bytes, f: bytes)
    ensures var whole := a + b + c + d + e + f;
            && whole == (a + b + c) + d + (e + f) && whole == (a + b + c + d) + e + f && whole == (a + b + c + d + e) + f + []
  {
  }

  lemma {:induction false} FundsPlaced(t: Transaction)
    requires InRange(t)
    ensures FieldAt(GetStruct(t), 0, BigEndian(t.version, 2)) && FieldAt(GetStruct(t), 2, [|t.tokens|, |t.inputs|, |t.outputs|])
    ensures HashesAt(GetStruct(t), 5, t.tokens) && InputsAt(GetStruct(t), InputsStart(t), t.inputs)
  {
    hide EncodeCounts, BigEndian, JoinHashes, JoinInputs, JoinOutputs, EncodeGraph, FieldAt, HashesAt, InputsAt, ToBig;
    var counts, tokens, inputs := EncodeCounts(CountsOf(t)), JoinHashes(t.tokens), JoinInputs(t.inputs);
    var outputs, graph, nonce := JoinOutputs(t.outputs), EncodeGraph(t.graph), ToBig(t.nonce, 4);
    SplitFunds(counts, tokens, inputs, outputs, graph, nonce);
    Sizes(t);
    CountsPlaced(t);
    MiddleFields([], BigEndian(t.version, 2), [|t.tokens|, |t.inputs|, |t.outputs|], tokens + inputs + outputs + graph + nonce);
    HashesPlaced(t.tokens);
    HashesMove(counts, tokens, inputs + outputs + graph + nonce, 0, t.tokens);
    InputsPlaced(t.inputs);
    InputsMove(counts + tokens, inputs, outputs + graph + nonce, t.inputs);
  }

  lemma {:induction false} RestPlaced(t: Transaction)
    requires InRange(t)
    ensures OutputsAt(GetStruct(t), OutputsStart(t), t.outputs) && GraphAt(GetStruct(t), GraphStart(t), t.graph)
    ensures FieldAt(GetStruct(t), GraphStart(t) + GraphSize(t.graph), BigEndian(t.nonce, 4))
    ensures |GetStruct(t)| == GraphStart(t) + GraphSize(t.graph) + 4
  {
    hide EncodeCounts, BigEndian, JoinHashes, JoinInputs, JoinOutputs, EncodeGraph, FieldAt, OutputsAt, GraphAt, GraphSize, ToBig;
    var counts, tokens, inputs := EncodeCounts(CountsOf(t)), JoinHashes(t.tokens), JoinInputs(t.inputs);
    var outputs, graph, nonce := JoinOutputs(t.outputs), EncodeGraph(t.graph), ToBig(t.nonce, 4);
    SplitRest(counts, tokens, inputs, outputs, graph, nonce);
    Sizes(t);
    OutputsPlaced(t.outputs);
    OutputsMove(counts + tokens + inputs, outputs, graph + nonce, t.outputs);
    GraphPlaced(t.graph);
    GraphMoves(counts + tokens + inputs + outputs, graph, nonce, t.graph);
    BigIsBigEndian(t.nonce, 4);
    FieldPut(counts + tokens + inputs + outputs + graph, nonce, []);
  }

  /** Version, the numbers of tokens, inputs and outputs, then tokens, inputs, outputs, the graph
      fields and the nonce. */
  lemma {:induction false} TransactionLayout(t: Transaction)
    requires InRange(t)
    ensures var b := GetStruct(t);
            var inputs := 5 + 32 * |t.tokens|;
            var outputs := inputs + InputsSize(t.inputs);
            var graph := outputs + OutputsSize(t.outputs);
            var nonce := graph + GraphSize(t.graph);
            && |b| == nonce + 4 && FieldAt(b, 0, BigEndian(t.version, 2)) && FieldAt(b, 2, [|t.tokens|, |t.inputs|, |t.outputs|])
            && HashesAt(b, 5, t.tokens) && InputsAt(b, inputs, t.inputs) && OutputsAt(b, outputs, t.outputs)
            && GraphAt(b, graph, t.graph) && FieldAt(b, nonce, BigEndian(t.nonce, 4))
  {
    hide GetStruct, BigEndian, FieldAt, HashesAt, InputsAt, OutputsAt, GraphAt, GraphSize, InputsSize, OutputsSize;
    FundsPlaced(t);
    RestPlaced(t);
  }

  lemma {:induction false} SplitBlock(a: bytes, b: bytes, c: bytes, d: bytes, e: bytes)
    ensures var whole := a + b + (c + d) + e;
            && whole == [] + a + (b + c + d + e) && whole == a + b + (c + d + e) && whole == (a + b) + c + (d + e)
            && whole == (a + b + c) + d + e && whole == (a + b + c + d) + e + []
  {
  }

  /** Version, the number of outputs, then outputs, the graph fields, the data with its length and
      the nonce. */
  lemma {:induction false} BlockLayout(k: Block)
    requires InRangeBlock(k)
    ensures var b := GetBlockStruct(k);
            var graph := 3 + OutputsSize(k.outputs);
            var data := graph + GraphSize(k.graph);
            var nonce := data + 1 + |k.data|;
            && |b| == nonce + 16 && FieldAt(b, 0, BigEndian(k.version, 2)) && FieldAt(b, 2, [|k.outputs|])
            && OutputsAt(b, 3, k.outputs) && GraphAt(b, graph, k.graph)
            && FieldAt(b, data, [|k.data|]) && FieldAt(b, data + 1, k.data) && FieldAt(b, nonce, BigEndian(k.nonce, 16))
  {
    hide ToBig, BigEndian, JoinOutputs, EncodeGraph, FieldAt, OutputsAt, GraphAt, GraphSize, AllOutputs, InRangeGraph;
    BigIsBigEndian(k.version, 2);
    OneByte(|k.outputs|);
    OneByte(|k.data|);
    BigIsBigEndian(k.nonce, 16);
    OutputsPlaced(k.outputs);
    GraphPlaced(k.graph);
    var version: bytes, count: bytes := BigEndian(k.version, 2), [|k.outputs|];
    var size: bytes, nonce := [|k.data|], BigEndian(k.nonce, 16);
    var front, outputs, graph, data := version + count, JoinOutputs(k.outputs), EncodeGraph(k.graph), size + k.data;
    BlockParts(version, count, outputs, graph, size, k.data, nonce);
    SplitBlock(front, outputs, graph, data, nonce);
    MiddleFields([], version, count, outputs + graph + data + nonce);
    OutputsMove(front, outputs, graph + data + nonce, k.outputs);
    GraphMoves(front + outputs, graph, data + nonce, k.graph);
    MiddleFields(front + outputs + graph, size, k.data, nonce);
    FieldPut(front + outputs + graph + data, nonce, []);
  }

  lemma {:induction false} BlockParts(v: bytes, n: bytes, o: bytes, g: bytes, s: bytes, d: bytes, x: bytes)
    ensures (v + n + o) + (g + s + d) + x == (v + n) + o + (g + (s + d)) + x
  {
  }
}
