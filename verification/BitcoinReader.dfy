/** The decoder as it runs: every read consumes its bytes from the front of a mutable buffer,
    and a failed read abandons the decoding. */
module BitcoinReader {
  import opened Collections
  import opened Bytes
  import C = BitcoinCodec

  class ByteArray {
    var data: bytes

    constructor (encoded: bytes)
      ensures data == encoded
    {
      data := encoded;
    }

    method ReadLittle(size: nat) returns (r: Option<nat>)
      modifies this
      ensures Consumed(Bytes.ReadLittle(old(data), size), r, data)
    {
      if |data| < size { return None; }
      r := Some(FromLittle(data[..size]));
      data := data[size..];
    }

    method ReadInt32() returns (r: Option<int>)
      modifies this
      ensures Consumed(C.ReadInt32(old(data)), r, data)
    {
      var unsigned :- ReadLittle(4);
      var x: int := unsigned;
      var signed: int := if x >= 0x8000_0000 then x - 0x1_0000_0000 else x;
      return Some(signed);
    }

    method ReadSegwitFlag() returns (r: Option<bool>)
      modifies this
      ensures Consumed(C.ReadSegwitFlag(old(data)), r, data)
    {
      if data == [] { return None; }
      if data[0] == 0 {
        if |data| < 2 || data[1] != 1 { return None; }
        data := data[2..];
        return Some(true);
      }
      return Some(false);
    }

    method ReadVarint() returns (r: Option<nat>)
      modifies this
      ensures Consumed(C.ReadVarint(old(data)), r, data)
    {
      if data == [] { return None; }
      var i := data[0];
      data := data[1..];
      if i < 0xfd {
        return Some(i);
      }
      r := ReadLittle(if i < 0xfe then 2 else if i < 0xff then 4 else 8);
    }

    method ReadNBytes(length: nat) returns (r: bytes)
      modifies this
      ensures (r, data) == Slice(old(data), length)
    {
      if length <= |data| {
        r, data := data[..length], data[length..];
      } else {
        r, data := data, [];
      }
    }

    method ReadBytes() returns (r: Option<bytes>)
      modifies this
      ensures Consumed(C.ReadBytes(old(data)), r, data)
    {
      var n :- ReadVarint();
      var b := ReadNBytes(n);
      return Some(b);
    }

    method ReadOutpoint() returns (r: Option<C.OutPoint>)
      modifies this
      ensures Consumed(C.ReadOutpoint(old(data)), r, data)
    {
      var hash := ReadNBytes(32);
      var idx :- ReadLittle(4);
      return Some(C.OutPoint(hash, idx));
    }

    method ReadInput(stack: seq<bytes>) returns (r: Option<C.Input>)
      modifies this
      ensures Consumed(C.ReadInput(old(data), stack), r, data)
    {
      var outpoint :- ReadOutpoint();
      var scriptSig :- ReadBytes();
      var sequence :- ReadLittle(4);
      return Some(C.Input(outpoint, scriptSig, sequence, stack));
    }

    method ReadOutput() returns (r: Option<C.Output>)
      modifies this
      ensures Consumed(C.ReadOutput(old(data)), r, data)
    {
      var value :- ReadLittle(8);
      var script :- ReadBytes();
      return Some(C.Output(value, script));
    }

    method ReadOutputs() returns (r: Option<seq<C.Output>>)
      modifies this
      ensures Consumed(C.ReadOutputs(old(data)), r, data)
    {
      hide C.ReadOutput, C.ReadVarint;
      var count :- ReadVarint();
      var outputs, k := [], 0;
      ghost var all := C.ReadOutputList(data, count);
      PrependNothing(all);
      while k < count
        invariant k <= count
        invariant all == Prepend(outputs, C.ReadOutputList(data, count - k))
      {
        ghost var before := data;
        var o :- ReadOutput();
        assert C.ReadOutputList(before, count - k) == Prepend([o], C.ReadOutputList(data, count - k - 1));
        PrependOne(outputs, o, C.ReadOutputList(data, count - k - 1));
        outputs, k := outputs + [o], k + 1;
      }
      assert outputs + [] == outputs;
      return Some(outputs);
    }

    method ReadStack() returns (r: Option<seq<bytes>>)
      modifies this
      ensures Consumed(C.ReadStack(old(data)), r, data)
    {
      hide C.ReadBytes, C.ReadVarint;
      var count :- ReadVarint();
      var items, k := [], 0;
      ghost var all := C.ReadBytesList(data, count);
      PrependNothing(all);
      while k < count
        invariant k <= count
        invariant all == Prepend(items, C.ReadBytesList(data, count - k))
      {
        ghost var before := data;
        var x :- ReadBytes();
        assert C.ReadBytesList(before, count - k) == Prepend([x], C.ReadBytesList(data, count - k - 1));
        PrependOne(items, x, C.ReadBytesList(data, count - k - 1));
        items, k := items + [x], k + 1;
      }
      assert items + [] == items;
      return Some(items);
    }

    /** Reads the witnesses that start at `offset` and deletes their bytes from the middle. */
    method ReadWitnesses(inputCount: nat, offset: nat) returns (r: Option<seq<seq<bytes>>>)
      requires offset <= |data|
      modifies this
      ensures match C.ReadWitnessList(old(data)[offset..], inputCount)
              case None => r == None
              case Some((witnesses, rest)) => r == Some(witnesses) && data == old(data)[..offset] + rest
    {
      hide C.ReadStack;
      var witnessesBuf := new ByteArray(data[offset..]);
      var witnesses, k := [], 0;
      ghost var all := C.ReadWitnessList(witnessesBuf.data, inputCount);
      PrependNothing(all);
      while k < inputCount
        invariant k <= inputCount && data == old(data) && fresh(witnessesBuf)
        invariant all == Prepend(witnesses, C.ReadWitnessList(witnessesBuf.data, inputCount - k))
      {
        ghost var before := witnessesBuf.data;
        var w :- witnessesBuf.ReadStack();
        assert C.ReadWitnessList(before, inputCount - k) == Prepend([w], C.ReadWitnessList(witnessesBuf.data, inputCount - k - 1));
        PrependOne(witnesses, w, C.ReadWitnessList(witnessesBuf.data, inputCount - k - 1));
        witnesses, k := witnesses + [w], k + 1;
      }
      data := data[..offset] + witnessesBuf.data;
      assert witnesses + [] == witnesses;
      return Some(witnesses);
    }

    method ReadInputList(witnesses: seq<seq<bytes>>) returns (r: Option<seq<C.Input>>)
      modifies this
      ensures Consumed(C.ReadInputList(old(data), witnesses), r, data)
    {
      hide C.ReadInput;
      var inputs, k := [], 0;
      ghost var all := C.ReadInputList(data, witnesses);
      PrependNothing(all);
      while k < |witnesses|
        invariant k <= |witnesses|
        invariant all == Prepend(inputs, C.ReadInputList(data, witnesses[k..]))
      {
        ghost var before := data;
        var i :- ReadInput(witnesses[k]);
        assert witnesses[k..][1..] == witnesses[k + 1..];
        assert C.ReadInputList(before, witnesses[k..]) == Prepend([i], C.ReadInputList(data, witnesses[k + 1..]));
        PrependOne(inputs, i, C.ReadInputList(data, witnesses[k + 1..]));
        inputs, k := inputs + [i], k + 1;
      }
      assert inputs + [] == inputs;
      return Some(inputs);
    }

    method ReadInputs(withWitnesses: bool) returns (r: Option<seq<C.Input>>)
      modifies this
      ensures Consumed(C.ReadInputs(old(data), withWitnesses), r, data)
      decreases withWitnesses, 1
    {
      hide C.ReadInputList, C.ReadWitnessList, C.ReadOutputs, C.ReadVarint;
      var witnesses := [];
      if withWitnesses {
        var inputsSkipped :- SkipInputs();
        var afterInputs := new ByteArray(data[inputsSkipped.0..]);
        var outputsSkipped :- afterInputs.SkipOutputs();
        witnesses :- ReadWitnesses(inputsSkipped.1, inputsSkipped.0 + outputsSkipped.0);
      }
      var count :- ReadVarint();
      r := ReadInputList(if withWitnesses then witnesses else C.NoWitnesses(count));
    }

    /** How many bytes the inputs take, and how many inputs there are; nothing is consumed. */
    method SkipInputs() returns (r: Option<(nat, nat)>)
      ensures match C.ReadInputsPlain(data)
              case None => r == None
              case Some((inputs, rest)) => r == Some((|data| - |rest|, |inputs|))
      decreases true, 0
    {
      var buffer2 := new ByteArray(data);
      var inputs :- buffer2.ReadInputs(false);
      return Some((|data| - |buffer2.data|, |inputs|));
    }

    method SkipOutputs() returns (r: Option<(nat, nat)>)
      ensures match C.ReadOutputs(data)
              case None => r == None
              case Some((outputs, rest)) => r == Some((|data| - |rest|, |outputs|))
    {
      hide C.ReadOutputs;
      var buffer2 := new ByteArray(data);
      var outputs :- buffer2.ReadOutputs();
      return Some((|data| - |buffer2.data|, |outputs|));
    }
  }

  method Decode(encoded: bytes) returns (r: Option<C.Transaction>)
    ensures r == C.Decode(encoded)
  {
    hide C.ReadInt32, C.ReadSegwitFlag, C.ReadInputs, C.ReadOutputs;
    var i := new ByteArray(encoded);
    var version :- i.ReadInt32();
    var includeWitness :- i.ReadSegwitFlag();
    var inputs :- i.ReadInputs(includeWitness);
    var outputs :- i.ReadOutputs();
    var lockTime :- i.ReadLittle(4);
    if i.data != [] { return None; }
    return Some(C.Transaction(version, includeWitness, inputs, outputs, lockTime));
  }
}
