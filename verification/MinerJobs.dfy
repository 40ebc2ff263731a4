/** Miner jobs: the coordinator writes a coinbase with zeros where the extra nonce will go, cuts
    it at the base hash, and any work of the reserved size fits in. The list of witnesses that
    the coordinator appends to is the default value shared by all coinbase inputs. */
module MinerJobs {
  import opened Collections
  import opened Bytes
  import opened C = BitcoinCodec
  import opened MergedMining
  import Merkle

  datatype CoordJob = CoordJob(
    version: nat, previousBlockHash: bytes, coinbaseValue: nat, bits: bytes, height: nat,
    merklePath: seq<bytes>, witnessCommitment: Option<bytes>, appendToInput: bool, timestamp: nat)

  predicate ValidJob(job: CoordJob) {
    && |job.previousBlockHash| == 32 && |job.bits| == 4
    && job.coinbaseValue < Pow256(8) && job.height < 0x8000_0000_0000_0000
    && (job.witnessCommitment.Some? ==> |job.witnessCommitment.value| < Pow256(8))
  }

  function StripZeros(b: bytes): (r: bytes)
    ensures |r| <= |b|
  {
    if b != [] && b[|b| - 1] == 0 then StripZeros(b[..|b| - 1]) else b
  }

  function HeightScript(height: nat): (r: bytes)
    ensures |r| <= 9
  {
    Pow256Values();
    EncodeBytes(StripZeros(ToLittle(height, 8)))
  }

  /** The height script is a length and the height, least significant byte first, without zeros at
      the end. */
  lemma {:induction false} HeightScriptIs(height: nat)
    requires height < 0x8000_0000_0000_0000
    ensures var s := HeightScript(height);
            && s != [] && s[0] == |s| - 1 && FromLittle(s[1..]) == height && (|s| > 1 ==> s[|s| - 1] != 0)
  {
    Pow256Values();
    LittleRoundTrip(height, 8);
    var b := StripZeros(ToLittle(height, 8));
    StripKeepsValue(ToLittle(height, 8));
    assert EncodeBytes(b) == [|b|] + b;
  }

  lemma {:induction false} StripKeepsValue(b: bytes)
    ensures var r := StripZeros(b); FromLittle(r) == FromLittle(b) && (r != [] ==> r[|r| - 1] != 0)
    decreases |b|
  {
    if b != [] && b[|b| - 1] == 0 {
      ZeroBehind(b[..|b| - 1]);
      assert b == b[..|b| - 1] + [0];
      StripKeepsValue(b[..|b| - 1]);
    }
  }

  lemma {:induction false} ZeroBehind(b: bytes)
    ensures FromLittle(b + [0]) == FromLittle(b)
    decreases |b|
  {
    if b == [] {
      assert [] + [0] == [0] && FromLittle([0][1..]) == 0;
    } else {
      assert (b + [0])[1..] == b[1..] + [0];
      ZeroBehind(b[1..]);
    }
  }

  /** The shared default list after a job. */
  function NextDefault(job: CoordJob, shared: seq<bytes>): seq<bytes> {
    if job.witnessCommitment.Some? then shared + [Zeros(32)] else shared
  }

  function Tagged(baseHash: bytes, nonce: bytes): bytes { MAGIC_NUMBER + baseHash + nonce }

  function CoinbaseInput(job: CoordJob, shared: seq<bytes>, baseHash: bytes, nonce: bytes): Input {
    Input(OutPoint(Zeros(32), 0xffff_ffff),
          HeightScript(job.height) + if job.appendToInput then Tagged(baseHash, nonce) else [],
          SEQUENCE_FINAL, NextDefault(job, shared))
  }

  function FirstOutputs(job: CoordJob, payback: bytes): seq<Output> {
    [Output(job.coinbaseValue, payback)]
    + if job.witnessCommitment.Some? then [Output(0, job.witnessCommitment.value)] else []
  }

  function CoinbaseOutputs(job: CoordJob, payback: bytes, baseHash: bytes, nonce: bytes): seq<Output> {
    FirstOutputs(job, payback) + if job.appendToInput then [] else [Output(0, Tagged(baseHash, nonce))]
  }

  /** The coinbase with the given bytes in the place of the extra nonce. */
  function CoinbaseTx(job: CoordJob, shared: seq<bytes>, baseHash: bytes, payback: bytes, nonce: bytes): Transaction {
    Transaction(1, false, [CoinbaseInput(job, shared, baseHash, nonce)], CoinbaseOutputs(job, payback, baseHash, nonce), 0)
  }

  class Coordinator {
    /** The default value of `script_witness`: one list for all inputs made without witnesses. */
    var defaultWitness: seq<bytes>

    constructor ()
      ensures defaultWitness == []
    {
      defaultWitness := [];
    }

    method MakeCoinbaseTransaction(job: CoordJob, baseHash: bytes, payback: bytes, extraNonceSize: Option<nat>)
      returns (tx: Transaction)
      modifies this
      ensures defaultWitness == NextDefault(job, old(defaultWitness))
      ensures tx == CoinbaseTx(job, old(defaultWitness), baseHash, payback,
                               if extraNonceSize.Some? then Zeros(extraNonceSize.value) else [])
      ensures tx.outputs != [] && tx.outputs[0] == Output(job.coinbaseValue, payback)
      ensures job.witnessCommitment.Some? ==> |tx.outputs| > 1 && tx.outputs[1] == Output(0, job.witnessCommitment.value)
      ensures |tx.outputs| == 1 + (if job.witnessCommitment.Some? then 1 else 0) + (if job.appendToInput then 0 else 1)
      ensures |tx.inputs| == 1 && tx.inputs[0].previousOutput == OutPoint(Zeros(32), 0xffff_ffff) && tx.inputs[0].scriptWitness == defaultWitness
      ensures var script := if job.appendToInput then tx.inputs[0].scriptSig else tx.outputs[|tx.outputs| - 1].scriptPubkey;
              var nonce := if extraNonceSize.Some? then Zeros(extraNonceSize.value) else [];
              var start := if job.appendToInput then |HeightScript(job.height)| else 0;
              && HeightScript(job.height) <= tx.inputs[0].scriptSig && |script| == start + 4 + |baseHash| + |nonce|
              && script[start..] == [0x48, 0x61, 0x74, 0x68] + baseHash + nonce
      ensures !job.appendToInput ==> tx.inputs[0].scriptSig == HeightScript(job.height) && tx.outputs[|tx.outputs| - 1].value == 0
    {
      hide Zeros, HeightScript;
      ghost var nonce := if extraNonceSize.Some? then Zeros(extraNonceSize.value) else [];
      var coinbaseScript := HeightScript(job.height);
      if job.appendToInput {
        coinbaseScript := coinbaseScript + MAGIC_NUMBER;
        coinbaseScript := coinbaseScript + baseHash;
        if extraNonceSize.Some? {
          coinbaseScript := coinbaseScript + Zeros(extraNonceSize.value);
        }
      }
      assert coinbaseScript == HeightScript(job.height) + if job.appendToInput then Tagged(baseHash, nonce) else [];
      var outputs := [Output(job.coinbaseValue, payback)];
      if job.witnessCommitment.Some? {
        outputs := outputs + [Output(0, job.witnessCommitment.value)];
        defaultWitness := defaultWitness + [Zeros(32)];
      }
      assert outputs == FirstOutputs(job, payback);
      var inputs := [Input(OutPoint(Zeros(32), 0xffff_ffff), coinbaseScript, SEQUENCE_FINAL, defaultWitness)];
      if !job.appendToInput {
        var outputScript := MAGIC_NUMBER;
        outputScript := outputScript + baseHash;
        if extraNonceSize.Some? {
          outputScript := outputScript + Zeros(extraNonceSize.value);
        }
        assert outputScript == Tagged(baseHash, nonce);
        outputs := outputs + [Output(0, outputScript)];
      }
      tx := Transaction(1, false, inputs, outputs, 0);
      assert outputs == CoinbaseOutputs(job, payback, baseHash, nonce);
    }

    /** Cuts the coinbase where the base hash is followed by the zeros kept for the extra nonce. */
    method NewSingleMinerJob(job: CoordJob, baseHash: bytes, payback: bytes, xnonceSize: nat) returns (r: Option<MinerJob>)
      requires ValidJob(job) && ValidShared(defaultWitness) && Fits(baseHash, payback, Zeros(xnonceSize))
      modifies this
      ensures defaultWitness == NextDefault(job, old(defaultWitness))
      ensures r == MinerJobFor(job, old(defaultWitness), baseHash, payback, xnonceSize)
    {
      hide ToBytes, CoinbaseTx, ValidJob, Zeros, SplitFirst;
      CoinbaseInRange(job, defaultWitness, baseHash, payback, Zeros(xnonceSize));
      var coinbaseTx := MakeCoinbaseTransaction(job, baseHash, payback, Some(xnonceSize));
      var coinbase := ToBytes(coinbaseTx, false);
      var parts :- SplitFirst(coinbase, baseHash + Zeros(xnonceSize));
      var coinbaseHead := parts.0 + baseHash;
      r := Some(MinerJob(job.previousBlockHash, coinbaseHead, parts.1, job.merklePath, job.version, job.bits, job.timestamp, baseHash));
    }
  }

  predicate ValidShared(shared: seq<bytes>) { |shared| + 1 < Pow256(8) && forall w | w in shared :: |w| < Pow256(8) }

  predicate Fits(baseHash: bytes, payback: bytes, nonce: bytes) {
    |baseHash| == 32 && |payback| < Pow256(8) && |nonce| < Pow256(4)
  }

  lemma {:induction false} CoinbaseInRange(job: CoordJob, shared: seq<bytes>, baseHash: bytes, payback: bytes, nonce: bytes)
    requires ValidJob(job) && ValidShared(shared) && Fits(baseHash, payback, nonce)
    ensures InRange(CoinbaseTx(job, shared, baseHash, payback, nonce))
  {
    Pow256Values();
  }

  // ---- where the base hash and the extra nonce sit in the coinbase bytes

  function FrontOfInput(job: CoordJob, n: nat): bytes
    requires n < Pow256(4)
  {
    Pow256Values();
    Zeros(32) + ToLittle(0xffff_ffff, 4) + EncodeVarint(|HeightScript(job.height)| + 36 + n) + HeightScript(job.height) + MAGIC_NUMBER
  }

  lemma {:induction false} TaggedInput(job: CoordJob, shared: seq<bytes>, baseHash: bytes, nonce: bytes)
    requires job.appendToInput && |baseHash| == 32 && |nonce| < Pow256(4) && InRangeInput(CoinbaseInput(job, shared, baseHash, nonce))
    ensures EncodeInput(CoinbaseInput(job, shared, baseHash, nonce))
         == FrontOfInput(job, |nonce|) + baseHash + nonce + ToLittle(SEQUENCE_FINAL, 4)
  {
    hide Zeros, HeightScript, EncodeVarint, ToLittle;
    var script := HeightScript(job.height) + Tagged(baseHash, nonce);
    assert |script| == |HeightScript(job.height)| + 36 + |nonce|;
    assert EncodeInput(CoinbaseInput(job, shared, baseHash, nonce))
        == Zeros(32) + ToLittle(0xffff_ffff, 4) + (EncodeVarint(|script|) + script) + ToLittle(SEQUENCE_FINAL, 4);
  }

  lemma {:induction false} TaggedOutput(baseHash: bytes, nonce: bytes)
    requires |baseHash| == 32 && |nonce| < Pow256(4)
    ensures InRangeOutput(Output(0, Tagged(baseHash, nonce)))
    ensures 36 + |nonce| < Pow256(8)
    ensures EncodeOutput(Output(0, Tagged(baseHash, nonce)))
         == ToLittle(0, 8) + EncodeVarint(36 + |nonce|) + MAGIC_NUMBER + baseHash + nonce
  {
    hide EncodeVarint, ToLittle;
    Pow256Values();
  }

  lemma {:induction false} JoinLast(outputs: seq<Output>, last: Output)
    requires (forall o | o in outputs :: InRangeOutput(o)) && InRangeOutput(last)
    ensures JoinOutputs(outputs + [last]) == JoinOutputs(outputs) + EncodeOutput(last)
    decreases |outputs|
  {
    hide InRangeOutput, EncodeOutput;
    if outputs == [] {
      assert outputs + [last] == [last] && [last][1..] == [];
    } else {
      assert (outputs + [last])[1..] == outputs[1..] + [last];
      JoinLast(outputs[1..], last);
    }
  }

  function Flag(stack: seq<bytes>): bytes { if stack == [] then [] else [0, 1] }

  function Stack(stack: seq<bytes>): bytes
    requires InRangeStack(stack)
  {
    if stack == [] then [] else EncodeStack(stack)
  }

  lemma {:induction false} FirstInRange(job: CoordJob, payback: bytes)
    requires ValidJob(job) && |payback| < Pow256(8)
    ensures forall o | o in FirstOutputs(job, payback) :: InRangeOutput(o)
    ensures |FirstOutputs(job, payback)| + 1 < Pow256(8)
  {
    Pow256Values();
  }

  /** The coinbase bytes, part by part. */
  lemma {:induction false} Parts(t: Transaction)
    requires InRange(t) && t.version == 1 && !t.includeWitness && |t.inputs| == 1 && t.lockTime == 0
    ensures t.inputs[0] in t.inputs && InRangeStack(t.inputs[0].scriptWitness)
    ensures var stack := t.inputs[0].scriptWitness;
            ToBytes(t, false) == EncodeInt32(1) + Flag(stack) + ([1] + EncodeInput(t.inputs[0])) + EncodeOutputs(t.outputs) + Stack(stack) + ToLittle(0, 4)
  {
    hide EncodeInt32, EncodeInput, EncodeOutputs, EncodeStack, ToLittle, InRangeOutput;
    var i := t.inputs[0];
    assert i in t.inputs;
    assert HasWitness(t) <==> i.scriptWitness != [];
    assert t.inputs[1..] == [];
    assert EncodeVarint(1) == [1] && JoinInputs(t.inputs) == EncodeInput(i) + JoinInputs([]);
    assert InputPart(t) == [1] + EncodeInput(i);
    InRangeWitness(i);
    assert JoinWitnesses(t.inputs) == EncodeStack(WitnessOf(i)) + JoinWitnesses([]);
  }

  lemma {:induction false} RegroupInput(a: bytes, f: bytes, c: bytes, x: bytes, h: bytes, n: bytes, q: bytes, o: bytes, s: bytes, l: bytes)
    ensures a + f + (c + (x + h + n + q)) + o + s + l == (a + f + c + x) + h + n + (q + o + s + l)
  {
  }

  lemma {:induction false} RegroupOutput(a: bytes, f: bytes, c: bytes, i: bytes, k: bytes, j: bytes, x: bytes, h: bytes, n: bytes, s: bytes, l: bytes)
    ensures a + f + (c + i) + (k + (j + (x + h + n))) + s + l == (a + f + (c + i) + k + j + x) + h + n + (s + l)
  {
  }

  ghost function FrontWhenInInput(job: CoordJob, stack: seq<bytes>, n: nat): bytes
    requires n < Pow256(4)
  {
    EncodeInt32(1) + Flag(stack) + [1] + FrontOfInput(job, n)
  }

  ghost function FrontWhenInOutput(stack: seq<bytes>, i: Input, first: seq<Output>, n: nat): bytes
    requires InRangeInput(i) && (forall o | o in first :: InRangeOutput(o)) && |first| + 1 < Pow256(8) && 36 + n < Pow256(8)
  {
    EncodeInt32(1) + Flag(stack) + ([1] + EncodeInput(i)) + EncodeVarint(|first| + 1) + JoinOutputs(first)
    + (ToLittle(0, 8) + EncodeVarint(36 + n) + MAGIC_NUMBER)
  }

  lemma {:induction false} LayoutInInput(t: Transaction, job: CoordJob, shared: seq<bytes>, baseHash: bytes, payback: bytes, nonce: bytes)
    requires job.appendToInput && Fits(baseHash, payback, nonce)
    requires t == CoinbaseTx(job, shared, baseHash, payback, nonce) && InRange(t)
    ensures t.inputs[0] in t.inputs && t.outputs == FirstOutputs(job, payback) && InRangeStack(NextDefault(job, shared))
    ensures var stack := NextDefault(job, shared);
            ToBytes(t, false) == FrontWhenInInput(job, stack, |nonce|) + baseHash + nonce
              + (ToLittle(SEQUENCE_FINAL, 4) + EncodeOutputs(t.outputs) + Stack(stack) + ToLittle(0, 4))
  {
    hide EncodeInt32, EncodeInput, EncodeStack, EncodeOutputs, ToLittle, InRangeOutput, ToBytes, FrontOfInput, HeightScript, Zeros, Flag, Stack;
    var stack := NextDefault(job, shared);
    Parts(t);
    TaggedInput(job, shared, baseHash, nonce);
    assert t.outputs == FirstOutputs(job, payback);
    RegroupInput(EncodeInt32(1), Flag(stack), [1], FrontOfInput(job, |nonce|), baseHash, nonce,
                 ToLittle(SEQUENCE_FINAL, 4), EncodeOutputs(t.outputs), Stack(stack), ToLittle(0, 4));
  }

  lemma {:induction false} LayoutInOutput(t: Transaction, first: seq<Output>, baseHash: bytes, nonce: bytes)
    requires |baseHash| == 32 && |nonce| < Pow256(4)
    requires InRange(t) && t.version == 1 && !t.includeWitness && |t.inputs| == 1 && t.lockTime == 0
    requires t.outputs == first + [Output(0, Tagged(baseHash, nonce))] && |first| + 1 < Pow256(8)
    requires forall o | o in first :: InRangeOutput(o)
    ensures t.inputs[0] in t.inputs && InRangeStack(t.inputs[0].scriptWitness) && 36 + |nonce| < Pow256(8)
    ensures var stack := t.inputs[0].scriptWitness;
            ToBytes(t, false) == FrontWhenInOutput(stack, t.inputs[0], first, |nonce|) + baseHash + nonce + (Stack(stack) + ToLittle(0, 4))
  {
    hide EncodeInt32, EncodeInput, EncodeStack, EncodeVarint, JoinOutputs, ToLittle, InRangeOutput, ToBytes, Flag, Stack;
    var stack := t.inputs[0].scriptWitness;
    Parts(t);
    TaggedOutput(baseHash, nonce);
    JoinLast(first, Output(0, Tagged(baseHash, nonce)));
    var x := ToLittle(0, 8) + EncodeVarint(36 + |nonce|) + MAGIC_NUMBER;
    assert EncodeOutputs(t.outputs) == EncodeVarint(|first| + 1) + (JoinOutputs(first) + (x + baseHash + nonce));
    RegroupOutput(EncodeInt32(1), Flag(stack), [1], EncodeInput(t.inputs[0]), EncodeVarint(|first| + 1), JoinOutputs(first),
                  x, baseHash, nonce, Stack(stack), ToLittle(0, 4));
  }

  /** The coinbase bytes are a front, the base hash, the extra nonce and a back, and front and
      back do not depend on the bytes of the extra nonce. */
  lemma {:induction false} Layout(job: CoordJob, shared: seq<bytes>, baseHash: bytes, payback: bytes, nonce: bytes, other: bytes)
    returns (front: bytes, back: bytes)
    requires ValidJob(job) && ValidShared(shared) && Fits(baseHash, payback, nonce) && |other| == |nonce|
    ensures InRange(CoinbaseTx(job, shared, baseHash, payback, nonce)) && InRange(CoinbaseTx(job, shared, baseHash, payback, other))
    ensures ToBytes(CoinbaseTx(job, shared, baseHash, payback, nonce), false) == front + baseHash + nonce + back
    ensures ToBytes(CoinbaseTx(job, shared, baseHash, payback, other), false) == front + baseHash + other + back
  {
    hide EncodeInt32, EncodeInput, EncodeStack, EncodeOutputs, EncodeVarint, ToLittle, InRangeOutput, ToBytes, HeightScript, Zeros, Flag, Stack, FrontWhenInInput, FrontWhenInOutput;
    CoinbaseInRange(job, shared, baseHash, payback, nonce);
    CoinbaseInRange(job, shared, baseHash, payback, other);
    var t, u := CoinbaseTx(job, shared, baseHash, payback, nonce), CoinbaseTx(job, shared, baseHash, payback, other);
    var stack, first := NextDefault(job, shared), FirstOutputs(job, payback);
    FirstInRange(job, payback);
    if job.appendToInput {
      LayoutInInput(t, job, shared, baseHash, payback, nonce);
      LayoutInInput(u, job, shared, baseHash, payback, other);
      front := FrontWhenInInput(job, stack, |nonce|);
      back := ToLittle(SEQUENCE_FINAL, 4) + EncodeOutputs(first) + Stack(stack) + ToLittle(0, 4);
    } else {
      LayoutInOutput(t, first, baseHash, nonce);
      LayoutInOutput(u, first, baseHash, other);
      front := FrontWhenInOutput(stack, t.inputs[0], first, |nonce|);
      back := Stack(stack) + ToLittle(0, 4);
    }
  }

  // ---- from the job to the proof of work

  function MinerJobFor(job: CoordJob, shared: seq<bytes>, baseHash: bytes, payback: bytes, xnonceSize: nat): Option<MinerJob>
    requires ValidJob(job) && ValidShared(shared) && Fits(baseHash, payback, Zeros(xnonceSize))
  {
    CoinbaseInRange(job, shared, baseHash, payback, Zeros(xnonceSize));
    var coinbase := ToBytes(CoinbaseTx(job, shared, baseHash, payback, Zeros(xnonceSize)), false);
    var (head, tail) :- SplitFirst(coinbase, baseHash + Zeros(xnonceSize));
    Some(MinerJob(job.previousBlockHash, head + baseHash, tail, job.merklePath, job.version, job.bits, job.timestamp, baseHash))
  }

  lemma {:induction false} FoundFirst(b: bytes, front: bytes, sep: bytes, back: bytes)
    requires b == front + sep + back && forall q: nat | q < |front| :: !OccursAt(b, sep, q)
    ensures Find(b, sep, 0) == Some(|front|)
    ensures b[..|front|] == front && b[|front| + |sep|..] == back
  {
    assert OccursAt(b, sep, |front|);
  }

  lemma {:induction false} SliceOfTake(b: bytes, k: nat, q: nat, n: nat)
    requires q <= n <= k <= |b|
    ensures b[..k][q..n] == b[q..n]
  {
  }

  lemma {:induction false} SharedFront(front: bytes, sep: bytes, x: bytes, y: bytes, q: nat)
    requires q < |front| && |sep| <= |x| && |sep| <= |y| && x[..|sep|] == y[..|sep|] == sep
    ensures OccursAt(front + x, sep, q) <==> OccursAt(front + y, sep, q)
  {
    var n := q + |sep|;
    assert n <= |front + sep|;
    assert (front + x)[..|front + sep|] == front + sep == (front + y)[..|front + sep|];
    SliceOfTake(front + x, |front + sep|, q, n);
    SliceOfTake(front + y, |front + sep|, q, n);
  }

  lemma {:induction false} LongerPattern(b: bytes, sep: bytes, more: bytes, q: nat)
    requires OccursAt(b, sep + more, q)
    ensures OccursAt(b, sep, q)
  {
    assert b[q..q + |sep|] == b[q..q + |sep + more|][..|sep|];
  }

  /** A job is always made, and its two halves leave room for exactly the extra nonce. */
  lemma {:induction false} JobIsAlwaysMade(job: CoordJob, shared: seq<bytes>, baseHash: bytes, payback: bytes, xnonceSize: nat)
    requires ValidJob(job) && ValidShared(shared) && Fits(baseHash, payback, Zeros(xnonceSize))
    ensures var r := MinerJobFor(job, shared, baseHash, payback, xnonceSize);
            && r.Some? && InRange(CoinbaseTx(job, shared, baseHash, payback, Zeros(xnonceSize)))
            && |r.value.coinbaseHead| + xnonceSize + |r.value.coinbaseTail|
               == |ToBytes(CoinbaseTx(job, shared, baseHash, payback, Zeros(xnonceSize)), false)|
  {
    hide ToBytes, CoinbaseTx, ValidJob, ValidShared, Zeros;
    var front, back := Layout(job, shared, baseHash, payback, Zeros(xnonceSize), Zeros(xnonceSize));
    Put(front, baseHash + Zeros(xnonceSize), back);
    Regroup(front, baseHash, Zeros(xnonceSize), back);
  }

  /** If the base hash is found in one place only, that place is the intended one. */
  lemma {:induction false} FoundWhereItWasPut(front: bytes, baseHash: bytes, zeros: bytes, nonce: bytes, back: bytes, p: nat)
    requires baseHash != [] && OccursOnlyAt(front + baseHash + nonce + back, baseHash, p)
    ensures SplitFirst(front + baseHash + zeros + back, baseHash + zeros) == Some((front, back))
    ensures SplitOnly(front + baseHash + nonce + back, baseHash) == Some((front, nonce + back))
  {
    hide OccursAt;
    var c, z := front + baseHash + nonce + back, front + baseHash + zeros + back;
    var x, y := baseHash + nonce + back, baseHash + zeros + back;
    assert c == front + x == front + baseHash + (nonce + back) && z == front + y == front + (baseHash + zeros) + back;
    Put(front, baseHash, nonce + back);
    forall q: nat | q < |front|
      ensures !OccursAt(c, baseHash, q) && !OccursAt(z, baseHash + zeros, q)
    {
      SharedFront(front, baseHash, x, y, q);
      if OccursAt(z, baseHash + zeros, q) { LongerPattern(z, baseHash, zeros, q); }
    }
    FoundFirst(c, front, baseHash, nonce + back);
    FoundFirst(z, front, baseHash + zeros, back);
  }

  lemma {:induction false} Regroup(a: bytes, b: bytes, c: bytes, d: bytes)
    ensures a + b + c + d == a + (b + c) + d
  {
  }

  lemma {:induction false} Put(front: bytes, sep: bytes, back: bytes)
    ensures OccursAt(front + sep + back, sep, |front|)
  {
  }

  /** The miner's bytes complete the coinbase that the coordinator would have written with that
      extra nonce, and decoding gives that transaction. */
  lemma {:induction false} WorkCompletesTheCoinbase(job: CoordJob, shared: seq<bytes>, baseHash: bytes, payback: bytes, work: Work, p: nat)
    returns (front: bytes, back: bytes)
    requires ValidJob(job) && ValidShared(shared) && Fits(baseHash, payback, work.xnonce)
    ensures InRange(CoinbaseTx(job, shared, baseHash, payback, work.xnonce))
    ensures var t := CoinbaseTx(job, shared, baseHash, payback, work.xnonce);
            OccursOnlyAt(ToBytes(t, false), baseHash, p) ==>
              var r := MinerJobFor(job, shared, baseHash, payback, |work.xnonce|);
              && r == Some(MinerJob(job.previousBlockHash, front + baseHash, back, job.merklePath, job.version, job.bits, job.timestamp, baseHash))
              && SplitOnly(ToBytes(t, false), baseHash) == Some((front, work.xnonce + back))
              && r.value.MakeCoinbase(work) == Some(Filled(t))
  {
    hide ToBytes, Filled, Decode, ValidJob, ValidShared, CoinbaseTx, SplitFirst, SplitOnly;
    var zeros := Zeros(|work.xnonce|);
    front, back := Layout(job, shared, baseHash, payback, work.xnonce, zeros);
    var t := CoinbaseTx(job, shared, baseHash, payback, work.xnonce);
    if OccursOnlyAt(ToBytes(t, false), baseHash, p) {
      FoundWhereItWasPut(front, baseHash, zeros, work.xnonce, back, p);
      CoinbaseHasInput(job, shared, baseHash, payback, work.xnonce);
      RoundTripIff(t);
    }
  }

  lemma {:induction false} CoinbaseHasInput(job: CoordJob, shared: seq<bytes>, baseHash: bytes, payback: bytes, nonce: bytes)
    ensures CoinbaseTx(job, shared, baseHash, payback, nonce).inputs != []
    ensures WritesWitnesses(CoinbaseTx(job, shared, baseHash, payback, nonce), false) <==> NextDefault(job, shared) != []
  {
    var t := CoinbaseTx(job, shared, baseHash, payback, nonce);
    assert t.inputs[0] in t.inputs;
  }

  // ---- over a run of jobs

  ghost function DefaultAfter(jobs: seq<CoordJob>): seq<bytes> {
    if jobs == [] then [] else NextDefault(jobs[|jobs| - 1], DefaultAfter(jobs[..|jobs| - 1]))
  }

  lemma {:induction false} DefaultGrowsWithCommitments(jobs: seq<CoordJob>)
    ensures DefaultAfter(jobs) == [] <==> forall j | j in jobs :: j.witnessCommitment.None?
    ensures |DefaultAfter(jobs)| <= |jobs| && forall w | w in DefaultAfter(jobs) :: |w| == 32
    decreases |jobs|
  {
    if jobs != [] {
      var before, last := jobs[..|jobs| - 1], jobs[|jobs| - 1];
      DefaultGrowsWithCommitments(before);
      assert jobs == before + [last];
    }
  }

  /** For the last of any run of jobs and every work of the reserved size whose coinbase holds the
      base hash once: the coordinator's proof of work hashes to the hash of the Bitcoin header when
      no job of the run had a witness commitment, and otherwise only if the hash collides. */
  lemma {:induction false} ProofOfWorkIffNoCommitment(
    sha: bytes -> bytes, earlier: seq<CoordJob>, job: CoordJob, baseHash: bytes, payback: bytes, work: Work, p: nat)
    returns (x: bytes, y: bytes)
    requires ValidJob(job) && |earlier| + 1 < Pow256(8) && Fits(baseHash, payback, work.xnonce)
    ensures ValidShared(DefaultAfter(earlier)) && InRange(CoinbaseTx(job, DefaultAfter(earlier), baseHash, payback, work.xnonce))
    ensures var t := CoinbaseTx(job, DefaultAfter(earlier), baseHash, payback, work.xnonce);
            OccursOnlyAt(ToBytes(t, false), baseHash, p) ==>
              var mj := MinerJobFor(job, DefaultAfter(earlier), baseHash, payback, |work.xnonce|);
              && mj.Some? && |mj.value.prevHash| == 32 && |mj.value.bits| == 4
              && mj.value.BuildAuxPow(sha, work).Some? && mj.value.BuildHeader(sha, work).Some?
              && mj.value.BuildHeader(sha, work).value.merkleRoot == Merkle.Fold(sha, TxId(sha, t), job.merklePath)
              && var same := CalculateHash(sha, mj.value.BuildAuxPow(sha, work).value, baseHash) == sha(HeaderBytes(mj.value.BuildHeader(sha, work).value));
                 if forall j | j in earlier + [job] :: j.witnessCommitment.None? then same
                 else same ==> x != y && sha(x) == sha(y)
  {
    hide ToBytes, Filled, Decode, CoinbaseTx, SplitOnly, CalculateHash, HeaderBytes, MinerJobFor, WritesWitnesses, InRange;
    DefaultGrowsWithCommitments(earlier);
    var shared := DefaultAfter(earlier);
    Pow256Values();
    var t := CoinbaseTx(job, shared, baseHash, payback, work.xnonce);
    var front, back := WorkCompletesTheCoinbase(job, shared, baseHash, payback, work, p);
    x, y := [], [];
    if OccursOnlyAt(ToBytes(t, false), baseHash, p) {
      var mj := MinerJobFor(job, shared, baseHash, payback, |work.xnonce|).value;
      FilledWritesTheSame(t, false);
      FilledWritesTheSame(t, true);
      CoinbaseHasInput(job, shared, baseHash, payback, work.xnonce);
      assert mj.BuildAuxPow(sha, work).Some?;
      x, y := AuxPowIsTheHeaderHash(sha, mj, work);
      assert NextDefault(job, shared) == [] <==> forall j | j in earlier + [job] :: j.witnessCommitment.None?;
    }
  }

  // ---- a job after one with a commitment

  const MARK := 0xab

  /** A base hash whose byte occurs nowhere else. */
  const MARKS: bytes := seq(32, _ => MARK)

  const COMMITTED := CoordJob(1, Zeros(32), 0, [0, 0, 0, 0], 0, [], Some([]), true, 0)

  const LATER := COMMITTED.(witnessCommitment := None)

  /** Two bytes of the coordinator and eight of the miner. */
  const XNONCE_SIZE := 10

  predicate Unmarked(b: bytes) { MARK !in b }

  lemma {:induction false} ZerosUnmarked(n: nat)
    ensures Unmarked(Zeros(n)) && Unmarked(ToLittle(0, n))
    decreases n
  {
    if n > 0 {
      ZerosUnmarked(n - 1);
    }
  }

  lemma {:induction false} StripUnmarked(b: bytes)
    requires Unmarked(b)
    ensures Unmarked(StripZeros(b))
    decreases |b|
  {
    if b != [] && b[|b| - 1] == 0 {
      StripUnmarked(b[..|b| - 1]);
    }
  }

  lemma {:induction false} FrontUnmarked()
    ensures XNONCE_SIZE < Pow256(4) && Unmarked(FrontWhenInInput(LATER, [Zeros(32)], XNONCE_SIZE))
  {
    hide Zeros, ToLittle, StripZeros;
    Pow256Values();
    ZerosUnmarked(32);
    ZerosUnmarked(8);
    StripUnmarked(ToLittle(0, 8));
    Words();
  }

  lemma {:induction false} Words()
    ensures ToLittle(1, 4) == [1, 0, 0, 0] && ToLittle(0xffff_ffff, 4) == [0xff, 0xff, 0xff, 0xff]
  {
    assert ToLittle(1, 4) == [1] + ToLittle(0, 3) && ToLittle(0, 3) == [0] + ToLittle(0, 2) && ToLittle(0, 2) == [0] + ToLittle(0, 1);
    assert ToLittle(0xffff_ffff, 4) == [0xff] + ToLittle(0xff_ffff, 3) && ToLittle(0xff_ffff, 3) == [0xff] + ToLittle(0xffff, 2);
    assert ToLittle(0xffff, 2) == [0xff] + ToLittle(0xff, 1) && ToLittle(0xff, 1) == [0xff] + ToLittle(0, 0);
  }

  lemma {:induction false} BackUnmarked()
    ensures InRangeStack([Zeros(32)]) && forall o | o in FirstOutputs(LATER, []) :: InRangeOutput(o)
    ensures Unmarked(ToLittle(SEQUENCE_FINAL, 4) + EncodeOutputs(FirstOutputs(LATER, [])) + Stack([Zeros(32)]) + ToLittle(0, 4))
  {
    hide Zeros, ToLittle;
    Pow256Values();
    ZerosUnmarked(32);
    ZerosUnmarked(8);
    ZerosUnmarked(4);
    Words();
    var out := Output(0, []);
    assert FirstOutputs(LATER, []) == [out] && [out][1..] == [];
    assert JoinOutputs([out]) == EncodeOutput(out) + JoinOutputs([]);
    assert [Zeros(32)][1..] == [];
  }

  lemma {:induction false} MarksAreFoundOnce(front: bytes, nonce: bytes, back: bytes)
    requires Unmarked(front) && Unmarked(nonce) && Unmarked(back)
    ensures OccursOnlyAt(front + MARKS + nonce + back, MARKS, |front|)
  {
    var b := front + MARKS + nonce + back;
    assert b[|front|..|front| + 32] == MARKS;
    forall q: nat | OccursAt(b, MARKS, q)
      ensures q == |front|
    {
      assert b[q] == b[q..q + 32][0] && b[q + 31] == b[q..q + 32][31];
    }
  }

  /** One job with a witness commitment, and then one without: whatever extra nonce the miner of the
      second finds that does not hold the marking byte, its proof of work is not the hash of the
      Bitcoin header, for every collision-free hash. */
  lemma {:induction false} CommitmentBreaksTheProof(sha: bytes -> bytes, work: Work)
    requires |work.xnonce| == XNONCE_SIZE && Unmarked(work.xnonce)
    ensures ValidJob(LATER) && ValidShared(DefaultAfter([COMMITTED])) && Fits(MARKS, [], Zeros(XNONCE_SIZE))
    ensures var mj := MinerJobFor(LATER, DefaultAfter([COMMITTED]), MARKS, [], XNONCE_SIZE);
            && mj.Some? && |mj.value.prevHash| == 32 && |mj.value.bits| == 4
            && mj.value.BuildAuxPow(sha, work).Some? && mj.value.BuildHeader(sha, work).Some?
            && ((forall x, y | sha(x) == sha(y) :: x == y) ==>
                  CalculateHash(sha, mj.value.BuildAuxPow(sha, work).value, MARKS) != sha(HeaderBytes(mj.value.BuildHeader(sha, work).value)))
  {
    hide ToBytes, MinerJobFor, CalculateHash, HeaderBytes, FrontWhenInInput, EncodeOutputs, Stack, ToLittle, Zeros, Unmarked;
    Pow256Values();
    var shared := DefaultAfter([COMMITTED]);
    assert DefaultAfter([COMMITTED][..0]) == [] && shared == [Zeros(32)];
    CoinbaseInRange(LATER, shared, MARKS, [], work.xnonce);
    var t := CoinbaseTx(LATER, shared, MARKS, [], work.xnonce);
    LayoutInInput(t, LATER, shared, MARKS, [], work.xnonce);
    FrontUnmarked();
    BackUnmarked();
    var front := FrontWhenInInput(LATER, shared, XNONCE_SIZE);
    var back := ToLittle(SEQUENCE_FINAL, 4) + EncodeOutputs(t.outputs) + Stack(shared) + ToLittle(0, 4);
    MarksAreFoundOnce(front, work.xnonce, back);
    var x, y := ProofOfWorkIffNoCommitment(sha, [COMMITTED], LATER, MARKS, [], work, |front|);
    assert COMMITTED in [COMMITTED] + [LATER];
  }
}
