/** Merged mining: the coordinator hides the base hash of a Hathor block in a Bitcoin coinbase,
    leaves room for the miner's extra nonce, and later turns the miner's work into an auxiliary
    proof of work. Hashes are any function from bytes to bytes. */
module MergedMining {
  import opened Collections
  import opened Bytes
  import opened C = BitcoinCodec
  import Merkle

  const MAGIC_NUMBER: bytes := [0x48, 0x61, 0x74, 0x68]
  const SEQUENCE_FINAL := 0xffff_ffff

  // ---- searching byte strings

  predicate OccursAt(b: bytes, sep: bytes, p: nat) { p + |sep| <= |b| && b[p..p + |sep|] == sep }

  function Find(b: bytes, sep: bytes, p: nat): (r: Option<nat>)
    ensures r.Some? ==> p <= r.value && OccursAt(b, sep, r.value) && forall q | p <= q < r.value :: !OccursAt(b, sep, q)
    ensures r.None? ==> forall q | p <= q :: !OccursAt(b, sep, q)
    decreases |b| - p
  {
    if p + |sep| > |b| then None
    else if OccursAt(b, sep, p) then Some(p)
    else Find(b, sep, p + 1)
  }

  /** `head, tail = b.split(sep, 1)` */
  function SplitFirst(b: bytes, sep: bytes): Option<(bytes, bytes)> {
    var p :- Find(b, sep, 0);
    Some((b[..p], b[p + |sep|..]))
  }

  /** `head, tail = b.split(sep)`: fails when there is a second occurrence after the first. */
  function SplitOnly(b: bytes, sep: bytes): Option<(bytes, bytes)> {
    var p :- Find(b, sep, 0);
    if Find(b, sep, p + |sep|).Some? then None else Some((b[..p], b[p + |sep|..]))
  }

  ghost predicate OccursOnlyAt(b: bytes, sep: bytes, p: nat) {
    OccursAt(b, sep, p) && forall q: nat | OccursAt(b, sep, q) :: q == p
  }

  // ---- headers and the auxiliary proof of work

  datatype Header = Header(version: nat, prevBlock: bytes, merkleRoot: bytes, timestamp: nat, bits: bytes, nonce: nat)

  function HeaderBytes(h: Header): bytes {
    ToLittle(h.version, 4) + Reversed(h.prevBlock) + Reversed(h.merkleRoot)
    + ToLittle(h.timestamp, 4) + Reversed(h.bits) + ToLittle(h.nonce, 4)
  }

  datatype AuxPow = AuxPow(headerHead: bytes, coinbaseHead: bytes, coinbaseTail: bytes, merklePath: seq<bytes>, headerTail: bytes)

  function CalculateHash(sha: bytes -> bytes, a: AuxPow, baseHash: bytes): bytes {
    var coinbaseHash := sha(a.coinbaseHead + baseHash + a.coinbaseTail);
    sha(a.headerHead + Reversed(Merkle.Fold(sha, coinbaseHash, a.merklePath)) + a.headerTail)
  }

  datatype Work = Work(nonce: nat, xnonce: bytes, timestamp: Option<nat>)

  datatype MinerJob = MinerJob(
    prevHash: bytes, coinbaseHead: bytes, coinbaseTail: bytes, merklePath: seq<bytes>,
    version: nat, bits: bytes, timestamp: nat, baseHash: bytes)
  {
    function MakeCoinbase(work: Work): Option<Transaction> {
      Decode(coinbaseHead + work.xnonce + coinbaseTail)
    }

    function HeaderFor(sha: bytes -> bytes, work: Work, coinbase: Transaction): Header
      requires InRange(coinbase)
    {
      Header(version, prevHash, Merkle.Fold(sha, TxId(sha, coinbase), merklePath),
             if work.timestamp.Some? && work.timestamp.value != 0 then work.timestamp.value else timestamp,
             bits, work.nonce)
    }

    function BuildHeader(sha: bytes -> bytes, work: Work): Option<Header> {
      var coinbase :- MakeCoinbase(work);
      DecodedIsInRange(coinbaseHead + work.xnonce + coinbaseTail);
      Some(HeaderFor(sha, work, coinbase))
    }

    function BuildAuxPow(sha: bytes -> bytes, work: Work): Option<AuxPow>
      requires |prevHash| == 32 && |bits| == 4
    {
      var coinbase :- MakeCoinbase(work);
      DecodedIsInRange(coinbaseHead + work.xnonce + coinbaseTail);
      var header := HeaderBytes(HeaderFor(sha, work, coinbase));
      var (head, tail) :- SplitOnly(ToBytes(coinbase, false), baseHash);
      Some(AuxPow(header[..36], head, tail, merklePath, header[|header| - 12..]))
    }
  }

  function TxId(sha: bytes -> bytes, t: Transaction): bytes
    requires InRange(t)
  {
    sha(ToBytes(t, true))
  }

  /** What both the header and its auxiliary proof of work hash, up to the coinbase hash. */
  function HashedHeader(sha: bytes -> bytes, job: MinerJob, work: Work, coinbase: Transaction, coinbaseHash: bytes): bytes
    requires InRange(coinbase)
  {
    HeaderBytes(job.HeaderFor(sha, work, coinbase).(merkleRoot := Merkle.Fold(sha, coinbaseHash, job.merklePath)))
  }

  lemma {:induction false} HeaderParts(h: Header, other: bytes)
    requires |h.prevBlock| == 32 && |h.bits| == 4
    ensures var b := HeaderBytes(h);
            b[..36] + Reversed(other) + b[|b| - 12..] == HeaderBytes(h.(merkleRoot := other))
  {
    var b := HeaderBytes(h);
    var front, back := ToLittle(h.version, 4) + Reversed(h.prevBlock), ToLittle(h.timestamp, 4) + Reversed(h.bits) + ToLittle(h.nonce, 4);
    assert b == front + Reversed(h.merkleRoot) + back;
    assert b[..36] == front && b[|b| - 12..] == back;
  }

  lemma {:induction false} SplitRejoins(b: bytes, sep: bytes)
    ensures SplitOnly(b, sep).Some? ==> SplitOnly(b, sep).value.0 + sep + SplitOnly(b, sep).value.1 == b
  {
  }

  /** The proof of work hashes the header that has the full coinbase bytes at its root, witnesses
      included; the header itself has the transaction id there. */
  lemma {:induction false} BothHashes(sha: bytes -> bytes, job: MinerJob, work: Work)
    requires |job.prevHash| == 32 && |job.bits| == 4 && job.BuildAuxPow(sha, work).Some?
    ensures job.MakeCoinbase(work).Some? && InRange(job.MakeCoinbase(work).value) && job.BuildHeader(sha, work).Some?
    ensures var t := job.MakeCoinbase(work).value;
            && CalculateHash(sha, job.BuildAuxPow(sha, work).value, job.baseHash)
               == sha(HashedHeader(sha, job, work, t, sha(ToBytes(t, false))))
            && HeaderBytes(job.BuildHeader(sha, work).value) == HashedHeader(sha, job, work, t, TxId(sha, t))
  {
    hide Decode, ToBytes, SplitOnly, HeaderBytes;
    var b := job.coinbaseHead + work.xnonce + job.coinbaseTail;
    DecodedIsInRange(b);
    var t := Decode(b).value;
    SplitRejoins(ToBytes(t, false), job.baseHash);
    HeaderParts(job.HeaderFor(sha, work, t), Merkle.Fold(sha, sha(ToBytes(t, false)), job.merklePath));
  }

  lemma {:induction false} HeaderBindsRoot(sha: bytes -> bytes, job: MinerJob, work: Work, t: Transaction, a: bytes, b: bytes)
    requires InRange(t) && HashedHeader(sha, job, work, t, a) == HashedHeader(sha, job, work, t, b)
    ensures Merkle.Fold(sha, a, job.merklePath) == Merkle.Fold(sha, b, job.merklePath)
  {
    var h := job.HeaderFor(sha, work, t);
    var x, y := Merkle.Fold(sha, a, job.merklePath), Merkle.Fold(sha, b, job.merklePath);
    var front, back := ToLittle(h.version, 4) + Reversed(h.prevBlock), ToLittle(h.timestamp, 4) + Reversed(h.bits) + ToLittle(h.nonce, 4);
    assert HeaderBytes(h.(merkleRoot := x)) == front + Reversed(x) + back;
    assert HeaderBytes(h.(merkleRoot := y)) == front + Reversed(y) + back;
    assert |x| == |y|;
    assert Reversed(x) == (front + Reversed(x) + back)[|front|..|front| + |x|];
    assert Reversed(y) == (front + Reversed(y) + back)[|front|..|front| + |x|];
    ReversedTwice(x);
    ReversedTwice(y);
  }

  lemma {:induction false} WitnessesTakeRoom(t: Transaction)
    requires InRange(t)
    ensures WritesWitnesses(t, false) <==> ToBytes(t, false) != ToBytes(t, true)
  {
    if WritesWitnesses(t, false) {
      assert |ToBytes(t, false)| >= |ToBytes(t, true)| + 2;
    }
  }

  /** The proof of work hashes to the hash of the header exactly when the coinbase is written
      without witnesses: otherwise equality would exhibit a collision of the hash. */
  lemma {:induction false} AuxPowIsTheHeaderHash(sha: bytes -> bytes, job: MinerJob, work: Work) returns (x: bytes, y: bytes)
    requires |job.prevHash| == 32 && |job.bits| == 4 && job.BuildAuxPow(sha, work).Some?
    ensures job.MakeCoinbase(work).Some? && job.BuildHeader(sha, work).Some?
    ensures var same := CalculateHash(sha, job.BuildAuxPow(sha, work).value, job.baseHash) == sha(HeaderBytes(job.BuildHeader(sha, work).value));
            if !WritesWitnesses(job.MakeCoinbase(work).value, false) then same
            else same ==> x != y && sha(x) == sha(y)
  {
    hide HashedHeader, ToBytes, Decode, CalculateHash, HeaderBytes;
    BothHashes(sha, job, work);
    var t := job.MakeCoinbase(work).value;
    WitnessesTakeRoom(t);
    var full, stripped := ToBytes(t, false), ToBytes(t, true);
    x, y := HashedHeader(sha, job, work, t, sha(full)), HashedHeader(sha, job, work, t, sha(stripped));
    if x == y && full != stripped {
      HeaderBindsRoot(sha, job, work, t, sha(full), sha(stripped));
      x, y := full, stripped;
      if sha(full) != sha(stripped) {
        x, y := Merkle.PathBindsCoinbase(sha, sha(full), sha(stripped), job.merklePath);
      }
    }
  }
}
