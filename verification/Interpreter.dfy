/** The script builders and the interpreter as they run: builders append to their data, the
    interpreter moves a position along the script and changes a stack. */
module Interpreter {
  import opened Collections
  import opened Bytes
  import opened S = Scripts

  class HathorScript {
    var data: bytes

    constructor ()
      ensures data == []
    {
      data := [];
    }

    method AddOpcode(opcode: byte)
      modifies this
      ensures data == old(data) + [opcode]
    {
      data := data + [opcode];
    }

    method PushData(x: bytes)
      requires |x| <= 255
      modifies this
      ensures data == old(data) + Push(x)
    {
      if |x| <= 75 {
        data := data + ([|x|] + x);
      } else {
        data := data + ([OP_PUSHDATA1] + [|x|] + x);
      }
      assert [OP_PUSHDATA1] + [|x|] == [OP_PUSHDATA1, |x|];
    }

    method AddTimelock(timelock: Timelock)
      requires |LockBytes(timelock)| <= 255
      modifies this
      ensures data == old(data) + Lock(timelock)
    {
      if LockBytes(timelock) != [] {
        PushData(LockBytes(timelock));
        AddOpcode(OP_GREATERTHAN_TIMESTAMP);
      }
    }
  }

  method CreateP2pkhOutput(address: bytes, timelock: Timelock) returns (script: bytes)
    requires |address| == 25 && |LockBytes(timelock)| <= 255
    ensures script == P2pkhOutput(address, timelock)
  {
    hide Push, Lock;
    var s := new HathorScript();
    s.AddTimelock(timelock);
    s.AddOpcode(OP_DUP);
    s.AddOpcode(OP_HASH160);
    s.PushData(address[1..21]);
    s.AddOpcode(OP_EQUALVERIFY);
    s.AddOpcode(OP_CHECKSIG);
    return s.data;
  }

  method CreateP2pkhInput(pubkey: bytes, signature: bytes) returns (input: bytes)
    requires |pubkey| <= 255 && |signature| <= 255
    ensures input == P2pkhInput(pubkey, signature)
  {
    hide Push;
    var s := new HathorScript();
    s.PushData(signature);
    s.PushData(pubkey);
    return s.data;
  }

  method CreateMultiSigOutput(address: bytes, timelock: Timelock) returns (script: bytes)
    requires |address| == 25 && |LockBytes(timelock)| <= 255
    ensures script == MultiSigOutput(address, timelock)
  {
    hide Push, Lock;
    var s := new HathorScript();
    s.AddTimelock(timelock);
    s.AddOpcode(OP_HASH160);
    s.PushData(address[1..21]);
    s.AddOpcode(OP_EQUAL);
    return s.data;
  }

  method PushEach(s: HathorScript, items: seq<bytes>)
    requires forall x | x in items :: |x| <= 255
    modifies s
    ensures s.data == old(s.data) + PushAll(items)
  {
    hide Push;
    ghost var whole := s.data + PushAll(items);
    var k := 0;
    while k < |items|
      invariant k <= |items| && s.data + PushAll(items[k..]) == whole
    {
      assert PushAll(items[k..]) == Push(items[k]) + PushAll(items[k + 1..]) by { assert items[k..][1..] == items[k + 1..]; }
      s.PushData(items[k]);
      k := k + 1;
    }
    assert PushAll(items[k..]) == [];
  }

  method CreateMultiSigInput(redeem: bytes, signatures: seq<bytes>) returns (input: bytes)
    requires |redeem| <= 255 && forall x | x in signatures :: |x| <= 255
    ensures input == MultiSigInput(redeem, signatures)
  {
    hide Push, PushAll;
    var s := new HathorScript();
    PushEach(s, signatures);
    s.PushData(redeem);
    return s.data;
  }

  method GenerateRedeemScript(required: nat, pubkeys: seq<bytes>) returns (script: bytes)
    requires required <= 16 && |pubkeys| <= 16 && forall x | x in pubkeys :: |x| <= 255
    ensures script == RedeemScript(required, pubkeys)
  {
    hide PushAll;
    var s := new HathorScript();
    s.AddOpcode(OP_0 + required);
    PushEach(s, pubkeys);
    s.AddOpcode(OP_0 + |pubkeys|);
    s.AddOpcode(OP_CHECKMULTISIG);
    return s.data;
  }

  // ---- the interpreter

  /** An operation that succeeded changed the stack as its specification says. */
  ghost predicate Changed(spec: Option<Stack>, ok: bool, stack: Stack) {
    ok == spec.Some? && (ok ==> stack == spec.value)
  }

  ghost function Shifted(r: Option<nat>, n: nat): Option<nat> { if r.None? then None else Some(r.value + n) }

  class Machine {
    const env: Env
    var stack: Stack

    constructor (env: Env)
      ensures this.env == env && stack == []
    {
      this.env := env;
      stack := [];
    }

    method PopItem() returns (x: Item)
      requires stack != []
      modifies this
      ensures x == Top(old(stack)) && stack == Pop(old(stack), 1)
    {
      x := stack[|stack| - 1];
      stack := stack[..|stack| - 1];
    }

    method OpEqual() returns (ok: bool)
      modifies this
      ensures Changed(S.OpEqual(old(stack)), ok, stack)
    {
      if |stack| < 2 { return false; }
      var elem1 := PopItem();
      var elem2 := PopItem();
      if !elem1.Data? || !elem2.Data? { return false; }
      stack := stack + [Int(if elem1 == elem2 then 1 else 0)];
      return true;
    }

    method OpEqualVerify() returns (ok: bool)
      modifies this
      ensures Changed(S.OpEqualVerify(old(stack)), ok, stack)
    {
      ok := OpEqual();
      if !ok { return false; }
      var isEqual := PopItem();
      return isEqual != Int(0);
    }

    method OpGreaterThanTimestamp() returns (ok: bool)
      modifies this
      ensures Changed(S.OpGreaterThanTimestamp(env, old(stack)), ok, stack)
    {
      if stack == [] { return false; }
      var buf := PopItem();
      if !buf.Data? || |buf.b| != 4 { return false; }
      return env.timestamp > FromBig(buf.b);
    }

    method OpHash160() returns (ok: bool)
      modifies this
      ensures Changed(S.OpHash160(env, old(stack)), ok, stack)
    {
      if stack == [] { return false; }
      var elem := PopItem();
      if !elem.Data? { return false; }
      stack := stack + [Data(env.hash160(elem.b))];
      return true;
    }

    method OpCheckSig() returns (ok: bool)
      modifies this
      ensures Changed(S.OpCheckSig(env, old(stack)), ok, stack)
    {
      if |stack| < 2 { return false; }
      var pubkey := PopItem();
      var signature := PopItem();
      if !pubkey.Data? || !signature.Data? || !env.keyValid(pubkey.b) { return false; }
      stack := stack + [Int(if env.sigValid(pubkey.b, signature.b) then 1 else 0)];
      return true;
    }

    /** Pops so many items, the top one first. */
    method PopMany(n: nat) returns (items: Stack)
      requires n <= |stack|
      modifies this
      ensures stack == Pop(old(stack), n) && items == Flipped(old(stack)[|old(stack)| - n..])
    {
      items := [];
      var k := 0;
      while k < n
        invariant k <= n && stack == Pop(old(stack), k) && |items| == k
        invariant forall i | 0 <= i < k :: items[i] == old(stack)[|old(stack)| - 1 - i]
      {
        var x := PopItem();
        items, k := items + [x], k + 1;
      }
    }

    /** The place of the first key that accepts the signature; no place if there is none. */
    method FindKey(signature: Item, pubkeys: Stack) returns (r: Option<nat>)
      ensures r == FirstKey(env, signature, pubkeys)
    {
      var index := 0;
      while index < |pubkeys|
        invariant index <= |pubkeys| && FirstKey(env, signature, pubkeys) == Shifted(FirstKey(env, signature, pubkeys[index..]), index)
      {
        assert pubkeys[index..][1..] == pubkeys[index + 1..];
        var newStack := new Machine(env);
        newStack.stack := [signature, pubkeys[index]];
        var ok := newStack.OpCheckSig();
        if !ok { return None; }
        var result := newStack.PopItem();
        if result == Int(1) { return Some(index); }
        index := index + 1;
      }
      return Some(index);
    }

    /** Each signature in turn; the keys up to the one it took are dropped. */
    method CheckAll(signatures: Stack, allPubkeys: Stack) returns (r: Option<bool>)
      ensures r == Greedy(env, signatures, allPubkeys)
    {
      hide FirstKey;
      var pubkeys, k := allPubkeys, 0;
      assert signatures[0..] == signatures;
      while k < |signatures|
        invariant k <= |signatures| && Greedy(env, signatures, allPubkeys) == Greedy(env, signatures[k..], pubkeys)
      {
        assert signatures[k..][1..] == signatures[k + 1..];
        var index := FindKey(signatures[k], pubkeys);
        if index.None? { return None; }
        if index.value == |pubkeys| { return Some(false); }
        pubkeys := pubkeys[index.value + 1..];
        k := k + 1;
      }
      assert signatures[k..] == [];
      return Some(true);
    }

    method OpCheckMultisig() returns (ok: bool)
      modifies this
      ensures Changed(S.OpCheckMultisig(env, old(stack)), ok, stack)
    {
      hide Greedy, Flipped;
      if stack == [] { return false; }
      var pubkeyCount := PopItem();
      if !pubkeyCount.Int? || |stack| < pubkeyCount.n { return false; }
      ghost var s := stack;
      var pubkeys := PopMany(pubkeyCount.n);
      if stack == [] { return false; }
      var signaturesCount := PopItem();
      if !signaturesCount.Int? || |stack| < signaturesCount.n { return false; }
      assert stack == Pop(s, pubkeyCount.n + 1);
      var signatures := PopMany(signaturesCount.n);
      var valid := CheckAll(signatures, pubkeys);
      if valid.None? { return false; }
      stack := stack + [Int(if valid.value then 1 else 0)];
      return true;
    }

    method RunOperation(opcode: byte) returns (ok: bool)
      modifies this
      ensures Changed(Operation(env, opcode, old(stack)), ok, stack)
    {
      hide S.OpEqual, S.OpEqualVerify, S.OpCheckSig, S.OpHash160, S.OpGreaterThanTimestamp, S.OpCheckMultisig;
      if OP_0 <= opcode <= OP_16 {
        stack := stack + [Int(opcode - OP_0)];
        return true;
      }
      if opcode == OP_DUP {
        if stack == [] { return false; }
        stack := stack + [stack[|stack| - 1]];
        return true;
      }
      if opcode == OP_EQUAL { ok := OpEqual(); }
      else if opcode == OP_EQUALVERIFY { ok := OpEqualVerify(); }
      else if opcode == OP_CHECKSIG { ok := OpCheckSig(); }
      else if opcode == OP_HASH160 { ok := OpHash160(); }
      else if opcode == OP_GREATERTHAN_TIMESTAMP { ok := OpGreaterThanTimestamp(); }
      else if opcode == OP_CHECKMULTISIG { ok := OpCheckMultisig(); }
      else { ok := false; }
    }

    method OpPushData(pos: nat, data: bytes) returns (next: Option<nat>)
      requires pos < |data| && IsPush(data[pos])
      modifies this
      ensures match ReadPush(data[pos..])
              case None => next == None
              case Some((x, rest)) => next.Some? && pos < next.value <= |data| && data[next.value..] == rest && stack == old(stack) + [Data(x)]
    {
      var start := pos + if data[pos] == OP_PUSHDATA1 then 2 else 1;
      if start > |data| { return None; }
      var length: nat := data[start - 1];
      if start + length > |data| { return None; }
      assert data[start..start + length] == data[pos..][start - pos..start - pos + length];
      stack := stack + [Data(data[start..start + length])];
      return Some(start + length);
    }
  }

  method ExecuteEval(env: Env, data: bytes) returns (accepted: bool)
    ensures accepted == Eval(env, data)
  {
    hide Operation, ReadPush;
    var m := new Machine(env);
    var pos := 0;
    assert data[0..] == data;
    while pos < |data|
      invariant pos <= |data| && fresh(m) && m.env == env
      invariant Execute(env, data, []) == Execute(env, data[pos..], m.stack)
      decreases |data| - pos
    {
      var opcode := data[pos];
      if IsPush(opcode) {
        var next := m.OpPushData(pos, data);
        if next.None? { return false; }
        pos := next.value;
      } else {
        assert data[pos..][1..] == data[pos + 1..];
        var ok := m.RunOperation(opcode);
        if !ok { return false; }
        pos := pos + 1;
      }
    }
    return m.stack == [] || m.stack[|m.stack| - 1] != Int(0);
  }

  method GetMultisigData(env: Env, input: bytes) returns (r: Unpacking)
    ensures r == Unpacked([], input)
  {
    hide ReadPush;
    var m := new Machine(env);
    var pos, lastPos := 0, 0;
    assert input[0..] == input && input[..0] == [];
    while pos < |input|
      invariant 0 <= lastPos <= pos <= |input| && fresh(m) && (pos > 0 ==> m.stack != [] && Top(m.stack).Data?)
      invariant pos < |input| || pos == 0 ==> Unpacked([], input) == Unpacked(input[..pos], input[pos..])
      invariant pos == |input| && pos > 0 ==> Unpacked([], input) == Ready(input[..lastPos] + Top(m.stack).b)
      decreases |input| - pos
    {
      lastPos := pos;
      if !IsPush(input[pos]) { return Stuck; }
      var next := m.OpPushData(pos, input);
      if next.None? { return Failed; }
      assert input[..pos] + input[pos..][..next.value - pos] == input[..next.value];
      pos := next.value;
    }
    if m.stack == [] || pos == 0 { return Failed; }
    return Ready(input[..lastPos] + m.stack[|m.stack| - 1].b);
  }

  datatype Verdict = Accepted | Rejected | Hung

  /** Both passes. Where the source would not come to an end the verdict is `Hung`. */
  method RunScriptEval(env: Env, input: bytes, output: bytes) returns (verdict: Verdict)
    ensures verdict.Accepted? <==> ScriptEval(env, input, output)
    ensures verdict.Hung? <==> Eval(env, input + output) && IsMultiSig(output) && StopsPushing(input)
  {
    hide Eval, Unpacked, IsMultiSig, StopsPushing;
    var accepted := ExecuteEval(env, input + output);
    if !accepted { return Rejected; }
    if !IsMultiSig(output) { return Accepted; }
    var data := GetMultisigData(env, input);
    UnpackedMeans([], input);
    if data.Stuck? { return Hung; }
    if data.Failed? { return Rejected; }
    accepted := ExecuteEval(env, data.data);
    return if accepted then Accepted else Rejected;
  }
}
