/** The parsers as they run: each reads the front of a buffer, sets fields and appends to lists,
    and hands back the rest of the buffer. */
module VertexParser {
  import opened Collections
  import opened Bytes
  import opened V = VertexCodec

  /** The fields common to transactions and blocks, filled in by the parsers. */
  class Vertex {
    var version: nat
    var tokens: seq<bytes>
    var inputs: seq<TxInput>
    var outputs: seq<TxOutput>
    var weight: bytes
    var timestamp: nat
    var parents: seq<bytes>
    var data: bytes

    constructor ()
      ensures tokens == [] && inputs == [] && outputs == [] && parents == [] && data == []
    {
      version, tokens, inputs, outputs := 0, [], [], [];
      weight, timestamp, parents, data := [], 0, [], [];
    }

    method AppendOutputs(n: nat, start: bytes) returns (r: Option<bytes>)
      requires outputs == []
      modifies `outputs
      ensures match ReadOutputs(start, n)
              case None => r == None
              case Some((os, rest)) => r == Some(rest) && outputs == os
    {
      hide ReadOutput;
      var buf, k := start, 0;
      ghost var all := ReadOutputs(buf, n);
      PrependNothing(all);
      while k < n
        invariant k <= n && all == Prepend(outputs, ReadOutputs(buf, n - k))
      {
        ghost var before := buf;
        var read :- ReadOutput(buf);
        buf := read.1;
        assert ReadOutputs(before, n - k) == Prepend([read.0], ReadOutputs(buf, n - k - 1));
        PrependOne(outputs, read.0, ReadOutputs(buf, n - k - 1));
        outputs, k := outputs + [read.0], k + 1;
      }
      assert outputs + [] == outputs;
      return Some(buf);
    }

    method AppendInputs(n: nat, start: bytes) returns (r: Option<bytes>)
      requires inputs == []
      modifies `inputs
      ensures match ReadInputs(start, n)
              case None => r == None
              case Some((is_, rest)) => r == Some(rest) && inputs == is_
    {
      hide ReadInput;
      var buf, k := start, 0;
      ghost var all := ReadInputs(buf, n);
      PrependNothing(all);
      while k < n
        invariant k <= n && all == Prepend(inputs, ReadInputs(buf, n - k))
      {
        ghost var before := buf;
        var read :- ReadInput(buf);
        buf := read.1;
        assert ReadInputs(before, n - k) == Prepend([read.0], ReadInputs(buf, n - k - 1));
        PrependOne(inputs, read.0, ReadInputs(buf, n - k - 1));
        inputs, k := inputs + [read.0], k + 1;
      }
      assert inputs + [] == inputs;
      return Some(buf);
    }

    static method UnpackHashes(n: nat, start: bytes) returns (hashes: seq<bytes>, buf: bytes)
      ensures (hashes, buf) == ReadHashes(start, n)
    {
      hashes, buf := [], start;
      var k := 0;
      ghost var all := ReadHashes(start, n);
      assert [] + all.0 == all.0;
      while k < n
        invariant k <= n && all.0 == hashes + ReadHashes(buf, n - k).0 && all.1 == ReadHashes(buf, n - k).1
      {
        var (h, rest) := Slice(buf, 32);
        ghost var more := ReadHashes(rest, n - k - 1).0;
        assert ReadHashes(buf, n - k).0 == [h] + more && hashes + ([h] + more) == (hashes + [h]) + more;
        hashes, buf, k := hashes + [h], rest, k + 1;
      }
      assert hashes + [] == hashes;
    }

    method GetTransactionFunds(b: bytes) returns (r: Option<bytes>)
      requires tokens == [] && inputs == [] && outputs == []
      modifies `version, `tokens, `inputs, `outputs
      ensures match ReadCounts(b)
              case None => r == None
              case Some((c, b1)) =>
                match ReadInputs(ReadHashes(b1, c.tokens).1, c.inputs)
                case None => r == None
                case Some((is_, b3)) =>
                  match ReadOutputs(b3, c.outputs)
                  case None => r == None
                  case Some((os, b4)) =>
                    r == Some(b4) && version == c.version && tokens == ReadHashes(b1, c.tokens).0 && inputs == is_ && outputs == os
    {
      hide ReadCounts, ReadHashes, ReadInputs, ReadOutputs;
      var counts :- ReadCounts(b);
      version := counts.0.version;
      var buf;
      tokens, buf := UnpackHashes(counts.0.tokens, counts.1);
      buf :- AppendInputs(counts.0.inputs, buf);
      buf :- AppendOutputs(counts.0.outputs, buf);
      return Some(buf);
    }

    method GetBlockFunds(b: bytes) returns (r: Option<bytes>)
      requires outputs == []
      modifies `version, `outputs
      ensures |b| < 3 ==> r == None
      ensures |b| >= 3 ==> match ReadOutputs(b[2..][1..], FromBig(b[2..][..1]))
                           case None => r == None
                           case Some((os, rest)) => r == Some(rest) && version == FromBig(b[..2]) && outputs == os
    {
      hide ReadOutputs, FromBig;
      var first :- ReadBig(b, 2);
      var second :- ReadBig(first.1, 1);
      version := first.0;
      r := AppendOutputs(second.0, second.1);
    }

    method GetGraphFields(b: bytes) returns (r: Option<bytes>)
      requires parents == []
      modifies `weight, `timestamp, `parents
      ensures match ReadGraph(b)
              case None => r == None
              case Some((g, rest)) => r == Some(rest) && Graph(weight, timestamp, parents) == g
    {
      hide ReadHashes, FromBig;
      if |b| < 8 { return None; }
      var time :- ReadBig(b[8..], 4);
      var count :- ReadBig(time.1, 1);
      weight, timestamp := b[..8], time.0;
      var buf;
      parents, buf := UnpackHashes(count.0, count.1);
      return Some(buf);
    }
  }

  method ParseTransaction(b: bytes) returns (r: Option<Transaction>)
    ensures r == CreateFromStruct(b)
  {
    hide ReadCounts, ReadHashes, ReadInputs, ReadOutputs, ReadGraph, FromBig;
    var v := new Vertex();
    var buf :- v.GetTransactionFunds(b);
    buf :- v.GetGraphFields(buf);
    if |buf| != 4 { return None; }
    return Some(Transaction(v.version, v.tokens, v.inputs, v.outputs, Graph(v.weight, v.timestamp, v.parents), FromBig(buf)));
  }

  method ParseBlock(b: bytes) returns (r: Option<Block>)
    ensures r == CreateBlockFromStruct(b)
  {
    hide ReadOutputs, ReadGraph, FromBig;
    var v := new Vertex();
    var buf :- v.GetBlockFunds(b);
    buf :- v.GetGraphFields(buf);
    var size :- ReadBig(buf, 1);
    var cut := Slice(size.1, size.0);
    v.data, buf := cut.0, cut.1;
    if |buf| != 16 { return None; }
    return Some(Block(v.version, v.outputs, Graph(v.weight, v.timestamp, v.parents), v.data, FromBig(buf)));
  }
}
