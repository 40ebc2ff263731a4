/** The byte form of the auxiliary proof of work. */
module AuxPowCodec {
  import opened Collections
  import opened Bytes
  import opened C = BitcoinCodec
  import opened MergedMining
  import R = BitcoinReader
  import V = VertexCodec

  predicate InRange(a: AuxPow) {
    && |a.headerHead| == 36 && |a.headerTail| == 12
    && |a.coinbaseHead| < Pow256(8) && |a.coinbaseTail| < Pow256(8) && |a.merklePath| < Pow256(8)
    && V.AllHashes(a.merklePath)
  }

  function ToBytes(a: AuxPow): bytes
    requires InRange(a)
  {
    a.headerHead + EncodeBytes(a.coinbaseHead) + EncodeBytes(a.coinbaseTail) + (EncodeVarint(|a.merklePath|) + V.JoinHashes(a.merklePath)) + a.headerTail
  }

  /** Bytes after the header tail are not looked at. */
  function FromBytes(b: bytes): Option<AuxPow> {
    var (headerHead, b1) := Slice(b, 36);
    var (coinbaseHead, b2) :- ReadBytes(b1);
    var (coinbaseTail, b3) :- ReadBytes(b2);
    var (count, b4) :- ReadVarint(b3);
    var (merklePath, b5) := V.ReadHashes(b4, count);
    Some(AuxPow(headerHead, coinbaseHead, coinbaseTail, merklePath, Slice(b5, 12).0))
  }

  lemma {:induction false} RoundTrip(a: AuxPow, rest: bytes)
    requires InRange(a)
    ensures FromBytes(ToBytes(a) + rest) == Some(a)
  {
    hide EncodeBytes, ReadBytes, EncodeVarint, ReadVarint, V.JoinHashes, V.ReadHashes;
    var path := V.JoinHashes(a.merklePath) + (a.headerTail + rest);
    var tail := EncodeBytes(a.coinbaseTail) + (EncodeVarint(|a.merklePath|) + path);
    assert ToBytes(a) + rest == a.headerHead + (EncodeBytes(a.coinbaseHead) + tail);
    TakeDrop(a.headerHead, EncodeBytes(a.coinbaseHead) + tail);
    BytesBack(a.coinbaseHead, tail);
    BytesBack(a.coinbaseTail, EncodeVarint(|a.merklePath|) + path);
    VarintBack(|a.merklePath|, path);
    V.HashesBack(a.merklePath, a.headerTail + rest);
    TakeDrop(a.headerTail, rest);
  }

  method Read(b: bytes) returns (r: Option<AuxPow>)
    ensures r == FromBytes(b)
  {
    hide ReadBytes, ReadVarint;
    var a := new R.ByteArray(b);
    var headerHead := a.ReadNBytes(36);
    var coinbaseHead :- a.ReadBytes();
    var coinbaseTail :- a.ReadBytes();
    var c :- a.ReadVarint();
    var merklePath, k := [], 0;
    ghost var all := V.ReadHashes(a.data, c);
    assert [] + all.0 == all.0;
    while k < c
      invariant k <= c && fresh(a)
      invariant all.0 == merklePath + V.ReadHashes(a.data, c - k).0 && all.1 == V.ReadHashes(a.data, c - k).1
    {
      ghost var before := a.data;
      var h := a.ReadNBytes(32);
      ghost var more := V.ReadHashes(a.data, c - k - 1).0;
      assert V.ReadHashes(before, c - k).0 == [h] + more;
      assert merklePath + ([h] + more) == (merklePath + [h]) + more;
      merklePath, k := merklePath + [h], k + 1;
    }
    assert merklePath + [] == merklePath;
    var headerTail := a.ReadNBytes(12);
    return Some(AuxPow(headerHead, coinbaseHead, coinbaseTail, merklePath, headerTail));
  }
}
