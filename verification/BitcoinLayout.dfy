/** Where each field is in the bytes of Bitcoin transactions, headers and auxiliary proofs of work.
    Numbers are little-endian; lengths below 0xfd take one byte. */
module BitcoinLayout {
  import opened Collections
  import opened Bytes
  import opened C = BitcoinCodec
  import opened MergedMining
  import A = AuxPowCodec
  import V = VertexCodec
  import VL = VertexLayout

  lemma {:induction false} VarintBytes(x: nat)
    requires x < Pow256(8)
    ensures EncodeVarint(x) == if x < 0xfd then [x]
                               else if x < 0x1_0000 then [0xfd, x % 256, x / 256]
                               else if x < 0x1_0000_0000 then [0xfe] + LittleEndian(x, 4)
                               else [0xff] + LittleEndian(x, 8)
  {
    LittleIsLittleEndian(x, 4);
    LittleIsLittleEndian(x, 8);
    assert ToLittle(x, 2) == [x % 256] + ToLittle(x / 256, 1);
  }

  lemma {:induction false} InputLayout(i: Input)
    requires InRangeInput(i) && |i.scriptSig| < 0xfd
    ensures EncodeInput(i) == i.previousOutput.hash + LittleEndian(i.previousOutput.idx, 4) + ([|i.scriptSig|] + i.scriptSig) + LittleEndian(i.sequence, 4)
  {
    hide ToLittle, LittleEndian;
    LittleIsLittleEndian(i.previousOutput.idx, 4);
    LittleIsLittleEndian(i.sequence, 4);
  }

  lemma {:induction false} OutputLayout(o: Output)
    requires InRangeOutput(o) && |o.scriptPubkey| < 0xfd
    ensures EncodeOutput(o) == LittleEndian(o.value, 8) + ([|o.scriptPubkey|] + o.scriptPubkey)
  {
    hide ToLittle, LittleEndian;
    LittleIsLittleEndian(o.value, 8);
  }

  /** A transaction of one input, with one witness, and one output: version, the marker if witnesses
      are written, inputs, outputs, witnesses, lock time. */
  lemma {:induction false} TransactionLayout(t: Transaction, i: Input, o: Output, w: bytes)
    requires InRange(t) && t.version >= 0 && t.inputs == [i] && t.outputs == [o] && i.scriptWitness == [w] && |w| < 0xfd
    ensures InRangeInput(i) && InRangeOutput(o)
    ensures ToBytes(t, true) == LittleEndian(t.version, 4) + ([1] + EncodeInput(i)) + ([1] + EncodeOutput(o)) + LittleEndian(t.lockTime, 4)
    ensures ToBytes(t, false) == LittleEndian(t.version, 4) + [0, 1] + ([1] + EncodeInput(i)) + ([1] + EncodeOutput(o))
                                 + ([1, |w|] + w) + LittleEndian(t.lockTime, 4)
  {
    hide ToLittle, LittleEndian, EncodeInput, EncodeOutput;
    LittleIsLittleEndian(t.version, 4);
    LittleIsLittleEndian(t.lockTime, 4);
    assert i in t.inputs && o in t.outputs && HasWitness(t);
    assert [i][1..] == [] && [o][1..] == [] && [w][1..] == [];
    assert JoinInputs([i]) == EncodeInput(i) + JoinInputs([]) && JoinOutputs([o]) == EncodeOutput(o) + JoinOutputs([]);
    assert InputPart(t) == [1] + EncodeInput(i) && OutputPart(t) == [1] + EncodeOutput(o);
    assert EncodeStack([w]) == [1] + JoinBytes([w]) && JoinBytes([w]) == [|w|] + w + JoinBytes([]);
    assert JoinWitnesses([i]) == EncodeStack([w]) + JoinWitnesses([]);
    assert JoinWitnesses(t.inputs) == [1, |w|] + w;
  }

  /** Eighty bytes: version, previous block and root from the last byte to the first, time, bits
      likewise, nonce. */
  lemma {:induction false} HeaderLayout(h: Header)
    requires |h.prevBlock| == 32 && |h.merkleRoot| == 32 && |h.bits| == 4
    ensures var b := HeaderBytes(h);
            && |b| == 80 && FieldAt(b, 0, LittleEndian(h.version, 4)) && FieldAt(b, 4, Reversed(h.prevBlock))
            && FieldAt(b, 36, Reversed(h.merkleRoot)) && FieldAt(b, 68, LittleEndian(h.timestamp, 4))
            && FieldAt(b, 72, Reversed(h.bits)) && FieldAt(b, 76, LittleEndian(h.nonce, 4))
  {
    hide ToLittle, LittleEndian, Reversed;
    LittleIsLittleEndian(h.version, 4);
    LittleIsLittleEndian(h.timestamp, 4);
    LittleIsLittleEndian(h.nonce, 4);
  }

  /** The header built from a miner's work: everything of the job but the nonce and, if the miner
      gives one, the time. */
  lemma {:induction false} BuiltHeader(sha: bytes -> bytes, job: MinerJob, work: Work)
    requires job.BuildHeader(sha, work).Some?
    ensures var h := job.BuildHeader(sha, work).value;
            && h.version == job.version && h.prevBlock == job.prevHash && h.bits == job.bits && h.nonce == work.nonce
            && (work.timestamp.Some? && work.timestamp.value > 0 ==> h.timestamp == work.timestamp.value)
            && (work.timestamp.None? || work.timestamp.value == 0 ==> h.timestamp == job.timestamp)
  {
    hide Decode, ToBytes;
  }

  lemma {:induction false} AuxPowLayout(a: AuxPow)
    requires A.InRange(a) && |a.coinbaseHead| < 0xfd && |a.coinbaseTail| < 0xfd && |a.merklePath| < 0xfd
    ensures var b := A.ToBytes(a);
            var tail := 37 + |a.coinbaseHead|;
            var path := tail + 1 + |a.coinbaseTail|;
            var end := path + 1 + 32 * |a.merklePath|;
            && |b| == end + 12 && FieldAt(b, 0, a.headerHead) && FieldAt(b, 36, [|a.coinbaseHead|]) && FieldAt(b, 37, a.coinbaseHead)
            && FieldAt(b, tail, [|a.coinbaseTail|]) && FieldAt(b, tail + 1, a.coinbaseTail)
            && FieldAt(b, path, [|a.merklePath|]) && VL.HashesAt(b, path + 1, a.merklePath) && FieldAt(b, end, a.headerTail)
  {
    hide A.ToBytes, VL.HashesAt, FieldAt, A.InRange;
    HeadPlaced(a);
    PathPlaced(a);
  }

  lemma {:induction false} Written(a: AuxPow)
    requires A.InRange(a) && |a.coinbaseHead| < 0xfd && |a.coinbaseTail| < 0xfd && |a.merklePath| < 0xfd
    ensures A.ToBytes(a) == a.headerHead + ([|a.coinbaseHead|] + a.coinbaseHead) + ([|a.coinbaseTail|] + a.coinbaseTail)
                            + ([|a.merklePath|] + V.JoinHashes(a.merklePath)) + a.headerTail
  {
  }

  lemma {:induction false} HeadPlaced(a: AuxPow)
    requires A.InRange(a) && |a.coinbaseHead| < 0xfd && |a.coinbaseTail| < 0xfd && |a.merklePath| < 0xfd
    ensures var b, tail := A.ToBytes(a), 37 + |a.coinbaseHead|;
            && FieldAt(b, 0, a.headerHead) && FieldAt(b, 36, [|a.coinbaseHead|]) && FieldAt(b, 37, a.coinbaseHead)
            && FieldAt(b, tail, [|a.coinbaseTail|]) && FieldAt(b, tail + 1, a.coinbaseTail)
  {
    hide A.ToBytes, V.JoinHashes, FieldAt;
    Written(a);
    var h, n: bytes, c, m: bytes, d := a.headerHead, [|a.coinbaseHead|], a.coinbaseHead, [|a.coinbaseTail|], a.coinbaseTail;
    var rest := ([|a.merklePath|] + V.JoinHashes(a.merklePath)) + a.headerTail;
    SplitHead(h, n + c, m + d, [|a.merklePath|] + V.JoinHashes(a.merklePath), a.headerTail);
    FieldPut([], h, (n + c) + (m + d) + rest);
    MiddleFields(h, n, c, (m + d) + rest);
    MiddleFields(h + (n + c), m, d, rest);
  }

  lemma {:induction false} SplitHead(h: bytes, c: bytes, d: bytes, p: bytes, e: bytes)
    ensures var b := h + c + d + p + e;
            && b == [] + h + (c + d + (p + e)) && b == h + c + (d + (p + e)) && b == (h + c) + d + (p + e)
  {
  }

  lemma {:induction false} PathPlaced(a: AuxPow)
    requires A.InRange(a) && |a.coinbaseHead| < 0xfd && |a.coinbaseTail| < 0xfd && |a.merklePath| < 0xfd
    ensures var b, path := A.ToBytes(a), 38 + |a.coinbaseHead| + |a.coinbaseTail|;
            var end := path + 1 + 32 * |a.merklePath|;
            && |b| == end + 12 && FieldAt(b, path, [|a.merklePath|]) && VL.HashesAt(b, path + 1, a.merklePath) && FieldAt(b, end, a.headerTail)
  {
    hide A.ToBytes, V.JoinHashes, FieldAt, VL.HashesAt;
    Written(a);
    VL.HashesPlaced(a.merklePath);
    var front := a.headerHead + ([|a.coinbaseHead|] + a.coinbaseHead) + ([|a.coinbaseTail|] + a.coinbaseTail);
    var count: bytes, path := [|a.merklePath|], V.JoinHashes(a.merklePath);
    SplitPath(front, count, path, a.headerTail);
    MiddleFields(front, count, path, a.headerTail);
    VL.HashesMove(front + count, path, a.headerTail, 0, a.merklePath);
    FieldPut(front + (count + path), a.headerTail, []);
  }

  lemma {:induction false} SplitPath(f: bytes, k: bytes, p: bytes, e: bytes)
    ensures f + (k + p) + e == (f + k) + p + e && f + (k + p) + e == (f + (k + p)) + e + []
  {
  }
}
