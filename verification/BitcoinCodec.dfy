/** The Bitcoin transaction format: serialisation with and without the witness part, and the
    decoder, which reads ahead over inputs and outputs to cut the witnesses out of the middle
    of the buffer before it reads the inputs. Hashes are byte strings. */
module BitcoinCodec {
  import opened Collections
  import opened Bytes

  datatype OutPoint = OutPoint(hash: bytes, idx: nat)

  datatype Input = Input(previousOutput: OutPoint, scriptSig: bytes, sequence: nat, scriptWitness: seq<bytes>)

  datatype Output = Output(value: nat, scriptPubkey: bytes)

  datatype Transaction = Transaction(version: int, includeWitness: bool, inputs: seq<Input>, outputs: seq<Output>, lockTime: nat)

  // ---- what the fixed-width fields can hold

  predicate InRangeInput(i: Input) {
    && |i.previousOutput.hash| == 32 && i.previousOutput.idx < Pow256(4)
    && |i.scriptSig| < Pow256(8) && i.sequence < Pow256(4)
    && |i.scriptWitness| < Pow256(8) && forall w | w in i.scriptWitness :: |w| < Pow256(8)
  }

  predicate InRangeOutput(o: Output) { o.value < Pow256(8) && |o.scriptPubkey| < Pow256(8) }

  predicate InRange(t: Transaction) {
    && -0x8000_0000 <= t.version < 0x8000_0000 && t.lockTime < Pow256(4)
    && |t.inputs| < Pow256(8) && |t.outputs| < Pow256(8)
    && (forall i | i in t.inputs :: InRangeInput(i)) && forall o | o in t.outputs :: InRangeOutput(o)
  }

  // ---- encoders

  function EncodeVarint(x: nat): bytes
    requires x < Pow256(8)
  {
    if x < 0xfd then [x]
    else if x <= 0xffff then [0xfd] + ToLittle(x, 2)
    else if x <= 0xffff_ffff then [0xfe] + ToLittle(x, 4)
    else [0xff] + ToLittle(x, 8)
  }

  function EncodeBytes(b: bytes): bytes
    requires |b| < Pow256(8)
  {
    EncodeVarint(|b|) + b
  }

  function EncodeInput(i: Input): bytes
    requires InRangeInput(i)
  {
    i.previousOutput.hash + ToLittle(i.previousOutput.idx, 4) + EncodeBytes(i.scriptSig) + ToLittle(i.sequence, 4)
  }

  function EncodeOutput(o: Output): bytes
    requires InRangeOutput(o)
  {
    ToLittle(o.value, 8) + EncodeBytes(o.scriptPubkey)
  }

  function JoinInputs(inputs: seq<Input>): bytes
    requires forall i | i in inputs :: InRangeInput(i)
  {
    if inputs == [] then [] else EncodeInput(inputs[0]) + JoinInputs(inputs[1..])
  }

  function JoinOutputs(outputs: seq<Output>): bytes
    requires forall o | o in outputs :: InRangeOutput(o)
  {
    if outputs == [] then [] else EncodeOutput(outputs[0]) + JoinOutputs(outputs[1..])
  }

  function JoinBytes(items: seq<bytes>): bytes
    requires forall w | w in items :: |w| < Pow256(8)
  {
    if items == [] then [] else EncodeBytes(items[0]) + JoinBytes(items[1..])
  }

  function Zeros(n: nat): (b: bytes)
    ensures |b| == n
  {
    if n == 0 then [] else [0] + Zeros(n - 1)
  }

  /** An input without a witness is written with one witness of 32 zero bytes. */
  function WitnessOf(i: Input): seq<bytes> {
    if i.scriptWitness == [] then [Zeros(32)] else i.scriptWitness
  }

  function EncodeStack(items: seq<bytes>): bytes
    requires |items| < Pow256(8) && forall w | w in items :: |w| < Pow256(8)
  {
    EncodeVarint(|items|) + JoinBytes(items)
  }

  function JoinWitnesses(inputs: seq<Input>): bytes
    requires forall i | i in inputs :: InRangeInput(i)
  {
    if inputs == [] then []
    else
      InRangeWitness(inputs[0]);
      EncodeStack(WitnessOf(inputs[0])) + JoinWitnesses(inputs[1..])
  }

  lemma {:induction false} InRangeWitness(i: Input)
    requires InRangeInput(i)
    ensures 0 < |WitnessOf(i)| < Pow256(8) && forall w | w in WitnessOf(i) :: |w| < Pow256(8)
  {
    Pow256Values();
  }

  predicate HasWitness(t: Transaction) { exists i :: i in t.inputs && i.scriptWitness != [] }

  /** Signed 32-bit little-endian. */
  function EncodeInt32(x: int): bytes
    requires -0x8000_0000 <= x < 0x8000_0000
  {
    ToLittle(if x < 0 then x + 0x1_0000_0000 else x, 4)
  }

  predicate WritesWitnesses(t: Transaction, skipSegwit: bool) {
    (HasWitness(t) || t.includeWitness) && !skipSegwit
  }

  function InputPart(t: Transaction): bytes
    requires InRange(t)
  {
    EncodeVarint(|t.inputs|) + JoinInputs(t.inputs)
  }

  function EncodeOutputs(outputs: seq<Output>): bytes
    requires |outputs| < Pow256(8) && forall o | o in outputs :: InRangeOutput(o)
  {
    EncodeVarint(|outputs|) + JoinOutputs(outputs)
  }

  function OutputPart(t: Transaction): bytes
    requires InRange(t)
  {
    EncodeOutputs(t.outputs)
  }

  function ToBytes(t: Transaction, skipSegwit: bool): bytes
    requires InRange(t)
  {
    EncodeInt32(t.version) + (if WritesWitnesses(t, skipSegwit) then [0, 1] else [])
    + InputPart(t) + OutputPart(t)
    + (if WritesWitnesses(t, skipSegwit) then JoinWitnesses(t.inputs) else [])
    + ToLittle(t.lockTime, 4)
  }

  predicate IsSuffix(rest: bytes, b: bytes) { |rest| <= |b| && rest == b[|b| - |rest|..] }

  // ---- readers, as functions from the buffer to the value and what is left

  function ReadVarint(b: bytes): (r: Option<(nat, bytes)>)
    ensures r.Some? ==> IsSuffix(r.value.1, b)
  {
    if b == [] then None
    else if b[0] < 0xfd then Some((b[0], b[1..]))
    else ReadLittle(b[1..], if b[0] == 0xfd then 2 else if b[0] == 0xfe then 4 else 8)
  }

  function ReadBytes(b: bytes): (r: Option<(bytes, bytes)>)
    ensures r.Some? ==> IsSuffix(r.value.1, b)
  {
    var (n, rest) :- ReadVarint(b);
    Some(Slice(rest, n))
  }

  function ReadOutpoint(b: bytes): (r: Option<(OutPoint, bytes)>)
    ensures r.Some? ==> IsSuffix(r.value.1, b)
  {
    var (idx, rest) :- ReadLittle(Slice(b, 32).1, 4);
    Some((OutPoint(Slice(b, 32).0, idx), rest))
  }

  function ReadInput(b: bytes, stack: seq<bytes>): (r: Option<(Input, bytes)>)
    ensures r.Some? ==> IsSuffix(r.value.1, b)
  {
    var (previous, b1) :- ReadOutpoint(b);
    var (script, b2) :- ReadBytes(b1);
    var (sequence, b3) :- ReadLittle(b2, 4);
    Some((Input(previous, script, sequence, stack), b3))
  }

  function ReadOutput(b: bytes): (r: Option<(Output, bytes)>)
    ensures r.Some? ==> IsSuffix(r.value.1, b)
  {
    var (value, b1) :- ReadLittle(b, 8);
    var (script, b2) :- ReadBytes(b1);
    Some((Output(value, script), b2))
  }

  /** `n` inputs; input number k gets the witness number k of the list. */
  function ReadInputList(b: bytes, witnesses: seq<seq<bytes>>): (r: Option<(seq<Input>, bytes)>)
    ensures r.Some? ==> IsSuffix(r.value.1, b)
    decreases |witnesses|
  {
    if witnesses == [] then Some(([], b))
    else
      var (i, b1) :- ReadInput(b, witnesses[0]);
      var (more, b2) :- ReadInputList(b1, witnesses[1..]);
      Some(([i] + more, b2))
  }

  function ReadOutputList(b: bytes, n: nat): (r: Option<(seq<Output>, bytes)>)
    ensures r.Some? ==> IsSuffix(r.value.1, b)
    decreases n
  {
    if n == 0 then Some(([], b))
    else
      var (o, b1) :- ReadOutput(b);
      var (more, b2) :- ReadOutputList(b1, n - 1);
      Some(([o] + more, b2))
  }

  function ReadBytesList(b: bytes, n: nat): (r: Option<(seq<bytes>, bytes)>)
    ensures r.Some? ==> IsSuffix(r.value.1, b)
    decreases n
  {
    if n == 0 then Some(([], b))
    else
      var (x, b1) :- ReadBytes(b);
      var (more, b2) :- ReadBytesList(b1, n - 1);
      Some(([x] + more, b2))
  }

  function ReadStack(b: bytes): (r: Option<(seq<bytes>, bytes)>)
    ensures r.Some? ==> IsSuffix(r.value.1, b)
  {
    var (n, b1) :- ReadVarint(b);
    ReadBytesList(b1, n)
  }

  function ReadWitnessList(b: bytes, n: nat): (r: Option<(seq<seq<bytes>>, bytes)>)
    ensures r.Some? ==> IsSuffix(r.value.1, b)
    decreases n
  {
    if n == 0 then Some(([], b))
    else
      var (w, b1) :- ReadStack(b);
      var (more, b2) :- ReadWitnessList(b1, n - 1);
      Some(([w] + more, b2))
  }

  function ReadOutputs(b: bytes): (r: Option<(seq<Output>, bytes)>)
    ensures r.Some? ==> IsSuffix(r.value.1, b)
  {
    var (n, b1) :- ReadVarint(b);
    ReadOutputList(b1, n)
  }

  function NoWitnesses(n: nat): seq<seq<bytes>> { seq(n, i => []) }

  function ReadInputsPlain(b: bytes): (r: Option<(seq<Input>, bytes)>)
    ensures r.Some? ==> IsSuffix(r.value.1, b)
  {
    var (n, b1) :- ReadVarint(b);
    ReadInputList(b1, NoWitnesses(n))
  }

  /** Look ahead over inputs and outputs and read the witnesses that follow them: the witnesses,
      and the buffer without their bytes. */
  function CutWitnesses(b: bytes): Option<(seq<seq<bytes>>, bytes)> {
    var (inputs, afterInputs) :- ReadInputsPlain(b);
    var (outputs, afterOutputs) :- ReadOutputs(afterInputs);
    var (witnesses, rest) :- ReadWitnessList(afterOutputs, |inputs|);
    Some((witnesses, b[..|b| - |afterOutputs|] + rest))
  }

  function ReadInputsWithWitnesses(b: bytes): Option<(seq<Input>, bytes)> {
    var (witnesses, cut) :- CutWitnesses(b);
    var (count, b1) :- ReadVarint(cut);
    ReadInputList(b1, witnesses)
  }

  function ReadInputs(b: bytes, segwit: bool): Option<(seq<Input>, bytes)> {
    if segwit then ReadInputsWithWitnesses(b) else ReadInputsPlain(b)
  }

  /** A buffer that starts with zero is taken for the segwit marker. */
  function ReadSegwitFlag(b: bytes): Option<(bool, bytes)> {
    if b == [] then None
    else if b[0] != 0 then Some((false, b))
    else if |b| < 2 || b[1] != 1 then None
    else Some((true, b[2..]))
  }

  function ReadInt32(b: bytes): Option<(int, bytes)> {
    var (x, rest) :- ReadLittle(b, 4);
    Some((if x >= 0x8000_0000 then x - 0x1_0000_0000 else x, rest))
  }

  function Decode(b: bytes): Option<Transaction> {
    var (version, b1) :- ReadInt32(b);
    var (segwit, b2) :- ReadSegwitFlag(b1);
    var (inputs, b3) :- ReadInputs(b2, segwit);
    var (outputs, b4) :- ReadOutputs(b3);
    var (lockTime, b5) :- ReadLittle(b4, 4);
    if b5 != [] then None else Some(Transaction(version, segwit, inputs, outputs, lockTime))
  }

  // ---- reading back what was written

  lemma {:induction false} VarintBack(x: nat, rest: bytes)
    requires x < Pow256(8)
    ensures ReadVarint(EncodeVarint(x) + rest) == Some((x, rest))
    ensures EncodeVarint(x) != [] && (EncodeVarint(x)[0] == 0 <==> x == 0)
  {
    Pow256Values();
    var e := EncodeVarint(x);
    if x < 0xfd {
      assert ([x] + rest)[1..] == rest;
    } else {
      var size := if x <= 0xffff then 2 else if x <= 0xffff_ffff then 4 else 8;
      ReadLittleOf(x, size, rest);
      assert (e + rest)[1..] == ToLittle(x, size) + rest;
    }
  }

  lemma {:induction false} BytesBack(x: bytes, rest: bytes)
    requires |x| < Pow256(8)
    ensures ReadBytes(EncodeBytes(x) + rest) == Some((x, rest))
  {
    hide IsSuffix, ReadVarint, EncodeVarint;
    assert EncodeBytes(x) + rest == EncodeVarint(|x|) + (x + rest);
    VarintBack(|x|, x + rest);
    TakeDrop(x, rest);
  }

  lemma {:induction false} InputBack(i: Input, stack: seq<bytes>, rest: bytes)
    requires InRangeInput(i)
    ensures ReadInput(EncodeInput(i) + rest, stack) == Some((i.(scriptWitness := stack), rest))
  {
    hide IsSuffix, ReadBytes, EncodeBytes, ToLittle, ReadLittle;
    var h, idx, s, q := i.previousOutput.hash, ToLittle(i.previousOutput.idx, 4), EncodeBytes(i.scriptSig), ToLittle(i.sequence, 4);
    assert EncodeInput(i) + rest == h + (idx + (s + (q + rest)));
    TakeDrop(h, idx + (s + (q + rest)));
    ReadLittleOf(i.previousOutput.idx, 4, s + (q + rest));
    BytesBack(i.scriptSig, q + rest);
    ReadLittleOf(i.sequence, 4, rest);
  }

  lemma {:induction false} OutputBack(o: Output, rest: bytes)
    requires InRangeOutput(o)
    ensures ReadOutput(EncodeOutput(o) + rest) == Some((o, rest))
  {
    hide IsSuffix, ReadBytes, EncodeBytes, ToLittle, ReadLittle;
    var s := EncodeBytes(o.scriptPubkey);
    assert EncodeOutput(o) + rest == ToLittle(o.value, 8) + (s + rest);
    ReadLittleOf(o.value, 8, s + rest);
    BytesBack(o.scriptPubkey, rest);
  }

  function WithWitnesses(inputs: seq<Input>, witnesses: seq<seq<bytes>>): seq<Input>
    requires |inputs| == |witnesses|
  {
    seq(|inputs|, k requires 0 <= k < |inputs| => inputs[k].(scriptWitness := witnesses[k]))
  }

  lemma {:induction false} JoinInputsStep(inputs: seq<Input>, rest: bytes)
    requires forall i | i in inputs :: InRangeInput(i)
    ensures inputs == [] ==> JoinInputs(inputs) + rest == rest
    ensures inputs != [] ==> JoinInputs(inputs) + rest == EncodeInput(inputs[0]) + (JoinInputs(inputs[1..]) + rest)
  {
    hide IsSuffix, EncodeInput;
  }

  lemma {:induction false} InputListBack(inputs: seq<Input>, witnesses: seq<seq<bytes>>, rest: bytes)
    requires |inputs| == |witnesses| && forall i | i in inputs :: InRangeInput(i)
    ensures ReadInputList(JoinInputs(inputs) + rest, witnesses) == Some((WithWitnesses(inputs, witnesses), rest))
    decreases |inputs|
  {
    hide IsSuffix, ReadInput, EncodeInput, JoinInputs, InRangeInput;
    JoinInputsStep(inputs, rest);
    if inputs == [] {
      assert WithWitnesses(inputs, witnesses) == [];
    } else {
      var tail := JoinInputs(inputs[1..]) + rest;
      InputBack(inputs[0], witnesses[0], tail);
      InputListBack(inputs[1..], witnesses[1..], rest);
      assert WithWitnesses(inputs, witnesses)
          == [inputs[0].(scriptWitness := witnesses[0])] + WithWitnesses(inputs[1..], witnesses[1..]);
    }
  }

  lemma {:induction false} JoinOutputsStep(outputs: seq<Output>, rest: bytes)
    requires forall o | o in outputs :: InRangeOutput(o)
    ensures outputs == [] ==> JoinOutputs(outputs) + rest == rest
    ensures outputs != [] ==> JoinOutputs(outputs) + rest == EncodeOutput(outputs[0]) + (JoinOutputs(outputs[1..]) + rest)
  {
    hide IsSuffix, EncodeOutput;
  }

  lemma {:induction false} OutputListBack(outputs: seq<Output>, rest: bytes)
    requires forall o | o in outputs :: InRangeOutput(o)
    ensures ReadOutputList(JoinOutputs(outputs) + rest, |outputs|) == Some((outputs, rest))
    decreases |outputs|
  {
    hide IsSuffix, ReadOutput, EncodeOutput, JoinOutputs, InRangeOutput;
    JoinOutputsStep(outputs, rest);
    if outputs != [] {
      var tail := JoinOutputs(outputs[1..]) + rest;
      OutputBack(outputs[0], tail);
      OutputListBack(outputs[1..], rest);
      assert [outputs[0]] + outputs[1..] == outputs;
    }
  }

  lemma {:induction false} JoinBytesStep(items: seq<bytes>, rest: bytes)
    requires forall w | w in items :: |w| < Pow256(8)
    ensures items == [] ==> JoinBytes(items) + rest == rest
    ensures items != [] ==> JoinBytes(items) + rest == EncodeBytes(items[0]) + (JoinBytes(items[1..]) + rest)
  {
    hide IsSuffix, EncodeBytes;
  }

  lemma {:induction false} BytesListBack(items: seq<bytes>, rest: bytes)
    requires forall w | w in items :: |w| < Pow256(8)
    ensures ReadBytesList(JoinBytes(items) + rest, |items|) == Some((items, rest))
    decreases |items|
  {
    hide IsSuffix, ReadBytes, EncodeBytes, JoinBytes;
    JoinBytesStep(items, rest);
    if items != [] {
      var tail := JoinBytes(items[1..]) + rest;
      BytesBack(items[0], tail);
      BytesListBack(items[1..], rest);
      assert [items[0]] + items[1..] == items;
    }
  }

  lemma {:induction false} StackBack(items: seq<bytes>, rest: bytes)
    requires |items| < Pow256(8) && forall w | w in items :: |w| < Pow256(8)
    ensures ReadStack(EncodeStack(items) + rest) == Some((items, rest))
  {
    hide IsSuffix, ReadVarint, EncodeVarint, ReadBytesList, JoinBytes;
    assert EncodeStack(items) + rest == EncodeVarint(|items|) + (JoinBytes(items) + rest);
    VarintBack(|items|, JoinBytes(items) + rest);
    BytesListBack(items, rest);
  }

  function Witnesses(inputs: seq<Input>): (w: seq<seq<bytes>>)
    ensures |w| == |inputs|
  {
    if inputs == [] then [] else [WitnessOf(inputs[0])] + Witnesses(inputs[1..])
  }

  lemma {:induction false} WitnessListBack(inputs: seq<Input>, rest: bytes)
    requires forall i | i in inputs :: InRangeInput(i)
    ensures ReadWitnessList(JoinWitnesses(inputs) + rest, |inputs|) == Some((Witnesses(inputs), rest))
    decreases |inputs|
  {
    hide IsSuffix, ReadStack, EncodeStack, WitnessOf;
    if inputs == [] {
      assert JoinWitnesses(inputs) + rest == rest;
    } else {
      InRangeWitness(inputs[0]);
      var tail := JoinWitnesses(inputs[1..]) + rest;
      assert JoinWitnesses(inputs) + rest == EncodeStack(WitnessOf(inputs[0])) + tail;
      StackBack(WitnessOf(inputs[0]), tail);
      WitnessListBack(inputs[1..], rest);
    }
  }

  lemma {:induction false} InputPartBack(t: Transaction, rest: bytes)
    requires InRange(t)
    ensures ReadInputsPlain(InputPart(t) + rest) == Some((WithWitnesses(t.inputs, NoWitnesses(|t.inputs|)), rest))
  {
    hide IsSuffix, ReadVarint, EncodeVarint, ReadInputList, JoinInputs, WithWitnesses;
    assert InputPart(t) + rest == EncodeVarint(|t.inputs|) + (JoinInputs(t.inputs) + rest);
    VarintBack(|t.inputs|, JoinInputs(t.inputs) + rest);
    InputListBack(t.inputs, NoWitnesses(|t.inputs|), rest);
  }

  lemma {:induction false} OutputPartBack(t: Transaction, rest: bytes)
    requires InRange(t)
    ensures ReadOutputs(OutputPart(t) + rest) == Some((t.outputs, rest))
  {
    hide IsSuffix, ReadVarint, EncodeVarint, ReadOutputList, JoinOutputs;
    assert OutputPart(t) + rest == EncodeVarint(|t.outputs|) + (JoinOutputs(t.outputs) + rest);
    VarintBack(|t.outputs|, JoinOutputs(t.outputs) + rest);
    OutputListBack(t.outputs, rest);
  }

  /** The look-ahead finds the witnesses behind inputs and outputs, and taking them out of the
      middle leaves inputs, outputs and what follows side by side. */
  lemma {:induction false} CutBack(t: Transaction, rest: bytes)
    requires InRange(t)
    ensures CutWitnesses(InputPart(t) + (OutputPart(t) + (JoinWitnesses(t.inputs) + rest)))
         == Some((Witnesses(t.inputs), InputPart(t) + (OutputPart(t) + rest)))
  {
    hide IsSuffix, ReadInputsPlain, ReadOutputs, ReadWitnessList, InputPart, OutputPart, Witnesses, JoinWitnesses;
    var behind := JoinWitnesses(t.inputs) + rest;
    var b := InputPart(t) + (OutputPart(t) + behind);
    InputPartBack(t, OutputPart(t) + behind);
    OutputPartBack(t, behind);
    WitnessListBack(t.inputs, rest);
    assert b[..|b| - |behind|] + rest == InputPart(t) + (OutputPart(t) + rest);
  }

  lemma {:induction false} WitnessPartBack(t: Transaction, rest: bytes)
    requires InRange(t)
    ensures ReadInputsWithWitnesses(InputPart(t) + (OutputPart(t) + (JoinWitnesses(t.inputs) + rest)))
         == Some((WithWitnesses(t.inputs, Witnesses(t.inputs)), OutputPart(t) + rest))
  {
    hide IsSuffix, CutWitnesses, ReadVarint, ReadInputList, EncodeVarint, JoinInputs, OutputPart, Witnesses, JoinWitnesses, WithWitnesses;
    CutBack(t, rest);
    var tail := OutputPart(t) + rest;
    assert InputPart(t) + tail == EncodeVarint(|t.inputs|) + (JoinInputs(t.inputs) + tail);
    VarintBack(|t.inputs|, JoinInputs(t.inputs) + tail);
    InputListBack(t.inputs, Witnesses(t.inputs), tail);
  }

  /** What decoding gives back: the witness flag says whether the witness part was written, and
      if so empty witnesses have become the default one. */
  function Filled(t: Transaction): Transaction {
    if HasWitness(t) || t.includeWitness
    then t.(includeWitness := true, inputs := WithWitnesses(t.inputs, Witnesses(t.inputs)))
    else t
  }

  lemma {:induction false} FilledInput(i: Input)
    requires InRangeInput(i)
    ensures var f := i.(scriptWitness := WitnessOf(i)); InRangeInput(f) && EncodeInput(f) == EncodeInput(i) && WitnessOf(f) == WitnessOf(i)
  {
    InRangeWitness(i);
  }

  lemma {:induction false} FilledInputs(inputs: seq<Input>)
    requires forall i | i in inputs :: InRangeInput(i)
    ensures var filled := WithWitnesses(inputs, Witnesses(inputs));
            && (forall i | i in filled :: InRangeInput(i))
            && JoinInputs(filled) == JoinInputs(inputs) && JoinWitnesses(filled) == JoinWitnesses(inputs)
    decreases |inputs|
  {
    hide EncodeStack, EncodeInput, WitnessOf, InRangeInput;
    if inputs != [] {
      FilledInput(inputs[0]);
      FilledInputs(inputs[1..]);
      var filled := WithWitnesses(inputs, Witnesses(inputs));
      assert filled[1..] == WithWitnesses(inputs[1..], Witnesses(inputs[1..]));
      assert filled == [filled[0]] + filled[1..];
    }
  }

  /** Writing what was decoded gives the same bytes again, with and without the witness part. */
  lemma {:induction false} FilledWritesTheSame(t: Transaction, skipSegwit: bool)
    requires InRange(t)
    ensures InRange(Filled(t)) && ToBytes(Filled(t), skipSegwit) == ToBytes(t, skipSegwit)
    ensures WritesWitnesses(Filled(t), skipSegwit) <==> WritesWitnesses(t, skipSegwit)
  {
    hide IsSuffix, EncodeInt32, JoinInputs, JoinWitnesses, EncodeOutputs, ToLittle, EncodeVarint, InRangeInput, InRangeOutput;
    FilledInputs(t.inputs);
  }

  lemma {:induction false} VersionBack(x: int, rest: bytes)
    requires -0x8000_0000 <= x < 0x8000_0000
    ensures ReadInt32(EncodeInt32(x) + rest) == Some((x, rest))
  {
    Pow256Values();
    ReadLittleOf(if x < 0 then x + 0x1_0000_0000 else x, 4, rest);
  }

  lemma {:induction false} PlainRoundTrip(t: Transaction)
    requires InRange(t) && !HasWitness(t) && !t.includeWitness && t.inputs != []
    ensures Decode(ToBytes(t, false)) == Some(t) && t == Filled(t)
  {
    hide IsSuffix, ReadInt32, EncodeInt32, ReadInputsPlain, ReadOutputs, OutputPart, ReadLittle, ToLittle, EncodeVarint;
    var lock := ToLittle(t.lockTime, 4);
    var body := InputPart(t) + (OutputPart(t) + lock);
    assert ToBytes(t, false) == EncodeInt32(t.version) + body;
    VersionBack(t.version, body);
    VarintBack(|t.inputs|, []);
    InputPartBack(t, OutputPart(t) + lock);
    OutputPartBack(t, lock);
    ReadLittleOf(t.lockTime, 4, []);
    assert lock + [] == lock;
    assert WithWitnesses(t.inputs, NoWitnesses(|t.inputs|)) == t.inputs by {
      forall k | 0 <= k < |t.inputs| ensures t.inputs[k].scriptWitness == [] { assert t.inputs[k] in t.inputs; }
    }
  }

  lemma {:induction false} SegwitRoundTrip(t: Transaction)
    requires InRange(t) && (HasWitness(t) || t.includeWitness)
    ensures Decode(ToBytes(t, false)) == Some(Filled(t))
  {
    hide IsSuffix, ReadInt32, EncodeInt32, ReadInputsWithWitnesses, ReadOutputs, InputPart, OutputPart, JoinWitnesses, ToLittle, WithWitnesses, HasWitness, ReadLittle;
    var lock := ToLittle(t.lockTime, 4);
    var body := InputPart(t) + (OutputPart(t) + (JoinWitnesses(t.inputs) + lock));
    assert ToBytes(t, false) == EncodeInt32(t.version) + ([0, 1] + body);
    VersionBack(t.version, [0, 1] + body);
    assert ([0, 1] + body)[2..] == body;
    WitnessPartBack(t, lock);
    OutputPartBack(t, lock);
    ReadLittleOf(t.lockTime, 4, []);
    assert lock + [] == lock;
  }

  lemma {:induction false} WitnessNeedsInput(t: Transaction)
    ensures HasWitness(t) ==> t.inputs != []
  {
  }

  /** Decoding the bytes of a transaction gives it back, with default witnesses filled in where
      the witness part was written, exactly unless it has no inputs and no witness part: then
      its zero input count is taken for the segwit marker. */
  lemma {:induction false} RoundTripIff(t: Transaction)
    requires InRange(t)
    ensures Decode(ToBytes(t, false)) == Some(Filled(t)) <==> (t.inputs != [] || t.includeWitness)
  {
    hide IsSuffix, ReadInt32, EncodeInt32, ReadInputs, ReadOutputs, JoinInputs, OutputPart, ReadLittle, ToLittle, HasWitness, WithWitnesses;
    assert HasWitness(t) ==> t.inputs != [] by { WitnessNeedsInput(t); }
    if HasWitness(t) || t.includeWitness {
      SegwitRoundTrip(t);
    } else if t.inputs != [] {
      PlainRoundTrip(t);
    } else {
      var body := InputPart(t) + (OutputPart(t) + ToLittle(t.lockTime, 4));
      assert ToBytes(t, false) == EncodeInt32(t.version) + body;
      VersionBack(t.version, body);
      VarintBack(0, []);
      assert body[0] == 0;
    }
  }

  // ---- whatever is decoded can be written again

  predicate InRangeStack(w: seq<bytes>) { |w| < Pow256(8) && forall x | x in w :: |x| < Pow256(8) }

  lemma {:induction false} VarintInRange(b: bytes)
    ensures ReadVarint(b).Some? ==> ReadVarint(b).value.0 < Pow256(8)
  {
    Pow256Values();
  }

  lemma {:induction false} BytesInRange(b: bytes)
    ensures ReadBytes(b).Some? ==> |ReadBytes(b).value.0| < Pow256(8)
  {
    VarintInRange(b);
  }

  lemma {:induction false} InputInRange(b: bytes, stack: seq<bytes>)
    requires InRangeStack(stack)
    ensures ReadInput(b, stack).Some? ==> InRangeInput(ReadInput(b, stack).value.0)
  {
    hide IsSuffix, ReadBytes;
    if ReadOutpoint(b).Some? {
      BytesInRange(ReadOutpoint(b).value.1);
    }
  }

  lemma {:induction false} InputListInRange(b: bytes, witnesses: seq<seq<bytes>>)
    requires forall w | w in witnesses :: InRangeStack(w)
    ensures var r := ReadInputList(b, witnesses);
            r.Some? ==> |r.value.0| == |witnesses| && forall i | i in r.value.0 :: InRangeInput(i)
    decreases |witnesses|
  {
    hide IsSuffix, ReadInput, InRangeInput, InRangeStack;
    if witnesses != [] {
      InputInRange(b, witnesses[0]);
      if ReadInput(b, witnesses[0]).Some? {
        InputListInRange(ReadInput(b, witnesses[0]).value.1, witnesses[1..]);
      }
    }
  }

  lemma {:induction false} OutputListInRange(b: bytes, n: nat)
    ensures var r := ReadOutputList(b, n);
            r.Some? ==> |r.value.0| == n && forall o | o in r.value.0 :: InRangeOutput(o)
    decreases n
  {
    hide IsSuffix, ReadBytes;
    if n > 0 && ReadOutput(b).Some? {
      BytesInRange(b[8..]);
      OutputListInRange(ReadOutput(b).value.1, n - 1);
    }
  }

  lemma {:induction false} BytesListInRange(b: bytes, n: nat)
    ensures var r := ReadBytesList(b, n);
            r.Some? ==> |r.value.0| == n && forall x | x in r.value.0 :: |x| < Pow256(8)
    decreases n
  {
    hide IsSuffix, ReadBytes;
    if n > 0 && ReadBytes(b).Some? {
      BytesInRange(b);
      BytesListInRange(ReadBytes(b).value.1, n - 1);
    }
  }

  lemma {:induction false} StackInRange(b: bytes)
    ensures ReadStack(b).Some? ==> InRangeStack(ReadStack(b).value.0)
  {
    hide IsSuffix, ReadVarint, ReadBytesList;
    VarintInRange(b);
    if ReadVarint(b).Some? {
      BytesListInRange(ReadVarint(b).value.1, ReadVarint(b).value.0);
    }
  }

  lemma {:induction false} WitnessListInRange(b: bytes, n: nat)
    ensures var r := ReadWitnessList(b, n);
            r.Some? ==> |r.value.0| == n && forall w | w in r.value.0 :: InRangeStack(w)
    decreases n
  {
    hide IsSuffix, ReadStack, InRangeStack;
    if n > 0 && ReadStack(b).Some? {
      StackInRange(b);
      WitnessListInRange(ReadStack(b).value.1, n - 1);
    }
  }

  lemma {:induction false} PlainInputsInRange(b: bytes)
    ensures var r := ReadInputsPlain(b);
            r.Some? ==> |r.value.0| < Pow256(8) && forall i | i in r.value.0 :: InRangeInput(i)
  {
    hide IsSuffix, ReadVarint, ReadInputList, InRangeInput;
    VarintInRange(b);
    if ReadVarint(b).Some? {
      var (n, rest) := ReadVarint(b).value;
      assert forall w | w in NoWitnesses(n) :: InRangeStack(w);
      InputListInRange(rest, NoWitnesses(n));
    }
  }

  lemma {:induction false} InputsInRange(b: bytes, segwit: bool)
    ensures var r := ReadInputs(b, segwit);
            r.Some? ==> |r.value.0| < Pow256(8) && forall i | i in r.value.0 :: InRangeInput(i)
  {
    hide IsSuffix, ReadVarint, ReadInputList, ReadInputsPlain, ReadOutputs, ReadWitnessList, InRangeInput, InRangeStack;
    PlainInputsInRange(b);
    if segwit && ReadInputs(b, segwit).Some? {
      var (inputs, afterInputs) := ReadInputsPlain(b).value;
      var (outputs, afterOutputs) := ReadOutputs(afterInputs).value;
      WitnessListInRange(afterOutputs, |inputs|);
      var (witnesses, cut) := CutWitnesses(b).value;
      InputListInRange(ReadVarint(cut).value.1, witnesses);
    }
  }

  lemma {:induction false} OutputsInRange(b: bytes)
    ensures var r := ReadOutputs(b);
            r.Some? ==> |r.value.0| < Pow256(8) && forall o | o in r.value.0 :: InRangeOutput(o)
  {
    hide IsSuffix, ReadVarint, ReadOutputList, InRangeOutput;
    VarintInRange(b);
    if ReadVarint(b).Some? {
      OutputListInRange(ReadVarint(b).value.1, ReadVarint(b).value.0);
    }
  }

  /** Every decoded transaction fits the fields it is written to. */
  lemma {:induction false} DecodedIsInRange(b: bytes)
    ensures Decode(b).Some? ==> InRange(Decode(b).value)
  {
    hide IsSuffix, ReadInputs, ReadOutputs, InRangeInput, InRangeOutput;
    if Decode(b).Some? {
      Pow256Values();
      var (version, b1) := ReadInt32(b).value;
      var (segwit, b2) := ReadSegwitFlag(b1).value;
      InputsInRange(b2, segwit);
      OutputsInRange(ReadInputs(b2, segwit).value.1);
    }
  }
}
