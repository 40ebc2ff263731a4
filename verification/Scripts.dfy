/** Output scripts: the stack interpreter, as functions on the rest of the script and the stack,
    the script builders, and when builder output is accepted. Hashing, key parsing and signature
    checks are given by the environment. */
module Scripts {
  import opened Collections
  import opened Bytes

  datatype Env = Env(timestamp: nat, hash160: bytes -> bytes, keyValid: bytes -> bool, sigValid: (bytes, bytes) -> bool)

  datatype Item = Data(b: bytes) | Int(n: nat)

  type Stack = seq<Item>

  const OP_0 := 0x50
  const OP_16 := 0x60
  const OP_DUP := 0x76
  const OP_EQUAL := 0x87
  const OP_EQUALVERIFY := 0x88
  const OP_CHECKSIG := 0xac
  const OP_HASH160 := 0xa9
  const OP_PUSHDATA1 := 0x4c
  const OP_GREATERTHAN_TIMESTAMP := 0x6f
  const OP_CHECKMULTISIG := 0xae

  // ---- the operations; None is an exception

  function Top(stack: Stack): Item
    requires stack != []
  {
    stack[|stack| - 1]
  }

  function Pop(stack: Stack, n: nat): Stack
    requires n <= |stack|
  {
    stack[..|stack| - n]
  }

  function OpDup(stack: Stack): Option<Stack> {
    if stack == [] then None else Some(stack + [Top(stack)])
  }

  function OpGreaterThanTimestamp(env: Env, stack: Stack): Option<Stack> {
    if stack == [] || !Top(stack).Data? || |Top(stack).b| != 4 || env.timestamp <= FromBig(Top(stack).b) then None
    else Some(Pop(stack, 1))
  }

  function OpEqual(stack: Stack): Option<Stack> {
    if |stack| < 2 || !Top(stack).Data? || !Top(Pop(stack, 1)).Data? then None
    else Some(Pop(stack, 2) + [Int(if Top(stack) == Top(Pop(stack, 1)) then 1 else 0)])
  }

  function OpEqualVerify(stack: Stack): Option<Stack> {
    var s :- OpEqual(stack);
    if s == [] || Top(s) == Int(0) then None else Some(Pop(s, 1))
  }

  function CheckSig(env: Env, pubkey: Item, signature: Item): Option<bool> {
    if pubkey.Data? && signature.Data? && env.keyValid(pubkey.b) then Some(env.sigValid(pubkey.b, signature.b)) else None
  }

  function OpCheckSig(env: Env, stack: Stack): Option<Stack> {
    if |stack| < 2 then None
    else
      var ok :- CheckSig(env, Top(stack), Top(Pop(stack, 1)));
      Some(Pop(stack, 2) + [Int(if ok then 1 else 0)])
  }

  function OpHash160(env: Env, stack: Stack): Option<Stack> {
    if stack == [] || !Top(stack).Data? then None
    else Some(Pop(stack, 1) + [Data(env.hash160(Top(stack).b))])
  }

  function Flipped<T>(s: seq<T>): (r: seq<T>)
    ensures |r| == |s| && forall i | 0 <= i < |s| :: r[i] == s[|s| - 1 - i]
  {
    seq(|s|, i requires 0 <= i < |s| => s[|s| - 1 - i])
  }

  /** The first key that accepts the signature, or the number of keys. */
  function FirstKey(env: Env, signature: Item, keys: Stack): (r: Option<nat>)
    ensures r.Some? ==> r.value <= |keys|
  {
    if keys == [] then Some(0)
    else
      var ok :- CheckSig(env, keys[0], signature);
      if ok then Some(0)
      else
        var i :- FirstKey(env, signature, keys[1..]);
        Some(i + 1)
  }

  /** Each signature takes the first key that accepts it among those after the last one taken. */
  function Greedy(env: Env, signatures: Stack, keys: Stack): Option<bool> {
    if signatures == [] then Some(true)
    else
      var i :- FirstKey(env, signatures[0], keys);
      if i == |keys| then Some(false) else Greedy(env, signatures[1..], keys[i + 1..])
  }

  function OpCheckMultisig(env: Env, stack: Stack): Option<Stack> {
    if stack == [] || !Top(stack).Int? then None
    else
      var n, s := Top(stack).n, Pop(stack, 1);
      if |s| <= n || !s[|s| - n - 1].Int? then None
      else
        var m, t := s[|s| - n - 1].n, Pop(s, n + 1);
        if |t| < m then None
        else
          var ok :- Greedy(env, Flipped(t[|t| - m..]), Flipped(s[|s| - n..]));
          Some(Pop(t, m) + [Int(if ok then 1 else 0)])
  }

  function Operation(env: Env, opcode: byte, stack: Stack): Option<Stack> {
    if OP_0 <= opcode <= OP_16 then Some(stack + [Int(opcode - OP_0)])
    else if opcode == OP_DUP then OpDup(stack)
    else if opcode == OP_EQUAL then OpEqual(stack)
    else if opcode == OP_EQUALVERIFY then OpEqualVerify(stack)
    else if opcode == OP_CHECKSIG then OpCheckSig(env, stack)
    else if opcode == OP_HASH160 then OpHash160(env, stack)
    else if opcode == OP_GREATERTHAN_TIMESTAMP then OpGreaterThanTimestamp(env, stack)
    else if opcode == OP_CHECKMULTISIG then OpCheckMultisig(env, stack)
    else None
  }

  // ---- the interpreter

  predicate IsPush(opcode: byte) { 1 <= opcode <= 75 || opcode == OP_PUSHDATA1 }

  /** The data pushed at the start of a script, and the script after it. */
  function ReadPush(data: bytes): (r: Option<(bytes, bytes)>)
    requires data != [] && IsPush(data[0])
    ensures r.Some? ==> |r.value.1| < |data|
  {
    var start := if data[0] == OP_PUSHDATA1 then 2 else 1;
    if |data| < start then None
    else
      var length: nat := data[start - 1];
      if |data| < start + length then None else Some((data[start..start + length], data[start + length..]))
  }

  function Execute(env: Env, data: bytes, stack: Stack): Option<Stack>
    decreases |data|
  {
    if data == [] then Some(stack)
    else if IsPush(data[0]) then
      var (x, rest) :- ReadPush(data);
      Execute(env, rest, stack + [Data(x)])
    else
      var s :- Operation(env, data[0], stack);
      Execute(env, data[1..], s)
  }

  predicate Eval(env: Env, data: bytes) {
    var r := Execute(env, data, []);
    r.Some? && (r.value == [] || Top(r.value) != Int(0))
  }

  /** `^(?:(DATA_4) OP_GREATERTHAN_TIMESTAMP)? OP_HASH160 (DATA_20) OP_EQUAL$` */
  predicate IsMultiSig(script: bytes) {
    IsLockless(script) || exists k | k in {6, 7} :: |script| >= k && IsTimelock(script[..k]) && IsLockless(script[k..])
  }

  predicate IsTimelock(s: bytes) {
    || (|s| == 6 && s[0] == 4 && s[5] == OP_GREATERTHAN_TIMESTAMP)
    || (|s| == 7 && s[0] == OP_PUSHDATA1 && s[1] == 4 && s[6] == OP_GREATERTHAN_TIMESTAMP)
  }

  predicate IsLockless(s: bytes) {
    var t := if s != [] && s[|s| - 1] == 0x0a then s[..|s| - 1] else s;
    || (|t| == 23 && t[0] == OP_HASH160 && t[1] == 20 && t[22] == OP_EQUAL)
    || (|t| == 24 && t[0] == OP_HASH160 && t[1] == OP_PUSHDATA1 && t[2] == 20 && t[23] == OP_EQUAL)
  }

  /** What unpacking comes to: data, an exception, or no end because a byte is no push. */
  datatype Unpacking = Ready(data: bytes) | Failed | Stuck

  /** Input data with its last push unpacked: `seen` holds what comes before. */
  function Unpacked(seen: bytes, data: bytes): Unpacking
    decreases |data|
  {
    if data == [] then Failed
    else if !IsPush(data[0]) then Stuck
    else
      match ReadPush(data)
      case None => Failed
      case Some((x, rest)) => if rest == [] then Ready(seen + x) else Unpacked(seen + data[..|data| - |rest|], rest)
  }

  predicate ScriptEval(env: Env, input: bytes, output: bytes) {
    && Eval(env, input + output)
    && (IsMultiSig(output) ==> Unpacked([], input).Ready? && Eval(env, Unpacked([], input).data))
  }

  /** A run of whole pushes. */
  predicate OnlyPushes(data: bytes)
    decreases |data|
  {
    data == [] || (IsPush(data[0]) && ReadPush(data).Some? && OnlyPushes(ReadPush(data).value.1))
  }

  /** Whole pushes, and then a byte that begins no push. */
  ghost predicate StopsPushing(data: bytes) {
    exists n :: 0 <= n < |data| && !IsPush(data[n]) && OnlyPushes(data[..n])
  }

  /** Unpacking succeeds exactly on one or more whole pushes, and never ends exactly if, after whole
      pushes, it meets a byte that begins none. */
  lemma {:induction false} UnpackedMeans(seen: bytes, data: bytes)
    ensures Unpacked(seen, data).Ready? <==> data != [] && OnlyPushes(data)
    ensures Unpacked(seen, data).Stuck? <==> StopsPushing(data)
    decreases |data|
  {
    hide ReadPush, StopsPushing;
    if data == [] || !IsPush(data[0]) || ReadPush(data).None? || ReadPush(data).value.1 == [] {
      StopsAt(data);
    } else {
      var (x, rest) := ReadPush(data).value;
      UnpackedMeans(seen + data[..|data| - |rest|], rest);
      StopsAfter(data);
    }
  }

  lemma {:induction false} PushPrefix(data: bytes, n: nat)
    requires 0 < n <= |data| && IsPush(data[0])
    ensures match ReadPush(data)
            case None => ReadPush(data[..n]) == None
            case Some((x, rest)) => ReadPush(data[..n]) == if n < |data| - |rest| then None else Some((x, rest[..n - (|data| - |rest|)]))
  {
    var start := if data[0] == OP_PUSHDATA1 then 2 else 1;
    if start <= n && start + data[start - 1] <= n {
      var end := start + data[start - 1];
      assert data[..n][start..end] == data[start..end] && data[..n][end..] == data[end..][..n - end];
    }
  }

  lemma {:induction false} StopsAt(data: bytes)
    requires data == [] || !IsPush(data[0]) || ReadPush(data).None? || ReadPush(data).value.1 == []
    ensures StopsPushing(data) <==> data != [] && !IsPush(data[0])
  {
    hide ReadPush;
    if data != [] {
      assert OnlyPushes(data[..0]);
      forall n | 0 < n < |data| && IsPush(data[0])
        ensures !OnlyPushes(data[..n])
      {
        PushPrefix(data, n);
      }
    }
  }

  lemma {:induction false} StopsAfter(data: bytes)
    requires data != [] && IsPush(data[0]) && ReadPush(data).Some? && ReadPush(data).value.1 != []
    ensures StopsPushing(data) <==> StopsPushing(ReadPush(data).value.1)
  {
    var rest := ReadPush(data).value.1;
    var c := |data| - |rest|;
    assert rest == data[c..];
    hide ReadPush;
    if StopsPushing(data) {
      var n :| 0 <= n < |data| && !IsPush(data[n]) && OnlyPushes(data[..n]);
      PushPrefix(data, n);
      assert rest[n - c] == data[n];
    }
    if StopsPushing(rest) {
      var n :| 0 <= n < |rest| && !IsPush(rest[n]) && OnlyPushes(rest[..n]);
      PushPrefix(data, n + c);
      assert data[n + c] == rest[n];
    }
  }

  // ---- builders

  function Push(x: bytes): bytes
    requires |x| <= 255
  {
    (if |x| <= 75 then [|x|] else [OP_PUSHDATA1, |x|]) + x
  }

  function IntBytes(n: nat): (b: bytes)
    ensures |b| <= 8
  {
    ToBig(n, if n > 0xffff_ffff then 8 else if n > 0xffff then 4 else if n > 0xff then 2 else 1)
  }

  /** A timelock is given as the bytes to push or as an integer. */
  datatype Timelock = NoLock | Raw(b: bytes) | Seconds(n: nat)

  /** The bytes pushed: none for an empty string or zero, which count as no timelock. */
  function LockBytes(timelock: Timelock): bytes {
    match timelock
    case NoLock => []
    case Raw(b) => b
    case Seconds(n) => if n == 0 then [] else IntBytes(n)
  }

  function Lock(timelock: Timelock): bytes
    requires |LockBytes(timelock)| <= 255
  {
    if LockBytes(timelock) == [] then [] else Push(LockBytes(timelock)) + [OP_GREATERTHAN_TIMESTAMP]
  }

  function P2pkhOutput(address: bytes, timelock: Timelock): bytes
    requires |address| == 25 && |LockBytes(timelock)| <= 255
  {
    Lock(timelock) + [OP_DUP, OP_HASH160] + Push(address[1..21]) + [OP_EQUALVERIFY, OP_CHECKSIG]
  }

  function P2pkhInput(pubkey: bytes, signature: bytes): bytes
    requires |pubkey| <= 255 && |signature| <= 255
  {
    Push(signature) + Push(pubkey)
  }

  function MultiSigOutput(address: bytes, timelock: Timelock): bytes
    requires |address| == 25 && |LockBytes(timelock)| <= 255
  {
    Lock(timelock) + [OP_HASH160] + Push(address[1..21]) + [OP_EQUAL]
  }

  function PushAll(items: seq<bytes>): bytes
    requires forall x | x in items :: |x| <= 255
  {
    if items == [] then [] else Push(items[0]) + PushAll(items[1..])
  }

  function MultiSigInput(redeem: bytes, signatures: seq<bytes>): bytes
    requires |redeem| <= 255 && forall x | x in signatures :: |x| <= 255
  {
    PushAll(signatures) + Push(redeem)
  }

  function RedeemScript(required: nat, pubkeys: seq<bytes>): bytes
    requires required <= 16 && |pubkeys| <= 16 && forall x | x in pubkeys :: |x| <= 255
  {
    [OP_0 + required] + PushAll(pubkeys) + [OP_0 + |pubkeys|, OP_CHECKMULTISIG]
  }

  // ---- running what the builders wrote

  lemma {:induction false} ReadBack(x: bytes, rest: bytes)
    requires 1 <= |x| <= 255
    ensures IsPush((Push(x) + rest)[0]) && ReadPush(Push(x) + rest) == Some((x, rest))
  {
    var data := Push(x) + rest;
    var start := if |x| <= 75 then 1 else 2;
    assert data[start - 1] == |x|;
    assert data[start..start + |x|] == x && data[start + |x|..] == rest;
  }

  lemma {:induction false} RunPush(env: Env, x: bytes, rest: bytes, stack: Stack)
    requires |x| <= 255
    ensures Execute(env, Push(x) + rest, stack) == if x == [] then None else Execute(env, rest, stack + [Data(x)])
  {
    if x != [] {
      ReadBack(x, rest);
    }
  }

  lemma {:induction false} RunOp(env: Env, opcode: byte, rest: bytes, stack: Stack)
    requires !IsPush(opcode)
    ensures Execute(env, [opcode] + rest, stack)
         == var s := Operation(env, opcode, stack); if s.None? then None else Execute(env, rest, s.value)
  {
    assert ([opcode] + rest)[1..] == rest;
  }

  /** A timelock of four bytes is passed by later timestamps; any other is never passed. */
  predicate Passed(env: Env, timelock: Timelock) {
    LockBytes(timelock) == [] || (|LockBytes(timelock)| == 4 && FromBig(LockBytes(timelock)) < env.timestamp)
  }

  lemma {:induction false} SecondsPassed(env: Env, n: nat)
    requires n < Pow256(8)
    ensures Passed(env, Seconds(n)) <==> n == 0 || (0xffff < n <= 0xffff_ffff && n < env.timestamp)
  {
    Pow256Values();
    if 0xffff < n <= 0xffff_ffff {
      BigRoundTrip(n, 4);
    }
  }

  lemma {:induction false} RunLock(env: Env, timelock: Timelock, rest: bytes, stack: Stack)
    requires |LockBytes(timelock)| <= 255
    ensures Execute(env, Lock(timelock) + rest, stack) == if Passed(env, timelock) then Execute(env, rest, stack) else None
  {
    hide Execute, LockBytes;
    var x := LockBytes(timelock);
    if x == [] {
      assert Lock(timelock) + rest == rest;
    } else {
      assert Lock(timelock) + rest == Push(x) + ([OP_GREATERTHAN_TIMESTAMP] + rest);
      RunPush(env, x, [OP_GREATERTHAN_TIMESTAMP] + rest, stack);
      RunOp(env, OP_GREATERTHAN_TIMESTAMP, rest, stack + [Data(x)]);
      assert Pop(stack + [Data(x)], 1) == stack;
    }
  }

  // ---- pay to public key hash

  /** What follows the timelock, on any stack. */
  lemma {:induction false} RunP2pkhTail(env: Env, hash: bytes, s: Stack)
    requires |hash| == 20
    ensures Execute(env, [OP_DUP] + ([OP_HASH160] + (Push(hash) + ([OP_EQUALVERIFY] + [OP_CHECKSIG]))), s)
         == if s == [] || !Top(s).Data? || env.hash160(Top(s).b) != hash then None else OpCheckSig(env, s)
  {
    hide Execute, Push, OpCheckSig;
    var tail := [OP_EQUALVERIFY] + [OP_CHECKSIG];
    RunOp(env, OP_DUP, [OP_HASH160] + (Push(hash) + tail), s);
    if s != [] && Top(s).Data? {
      var s3, h := s + [Top(s)], Data(env.hash160(Top(s).b));
      RunOp(env, OP_HASH160, Push(hash) + tail, s3);
      assert Pop(s3, 1) == s;
      RunPush(env, hash, tail, s + [h]);
      var s4 := s + [h] + [Data(hash)];
      RunOp(env, OP_EQUALVERIFY, [OP_CHECKSIG], s4);
      assert Pop(s4, 1) == s + [h] && Pop(s4, 2) == s && Pop(s + [Int(1)], 1) == s;
      assert [OP_CHECKSIG] + [] == [OP_CHECKSIG];
      RunOp(env, OP_CHECKSIG, [], s);
      RunWhatever(env, OpCheckSig(env, s));
    } else if s != [] {
      RunOp(env, OP_HASH160, Push(hash) + tail, s + [Top(s)]);
    }
  }

  lemma {:induction false} RunWhatever(env: Env, r: Option<Stack>)
    ensures r.Some? ==> Execute(env, [], r.value) == r
  {
  }

  lemma {:induction false} RunNothing(env: Env, stack: Stack)
    ensures Execute(env, [], stack) == Some(stack)
  {
  }

  lemma {:induction false} P2pkhIsNotMultiSig(address: bytes, timelock: Timelock)
    requires |address| == 25 && |LockBytes(timelock)| <= 255
    ensures !IsMultiSig(P2pkhOutput(address, timelock))
  {
  }

  /** A spend built for an address is accepted exactly by a later timestamp than the timelock, the
      public key that hashes to the address, and its signature. */
  lemma {:induction false} P2pkhSpend(env: Env, address: bytes, timelock: Timelock, pubkey: bytes, signature: bytes)
    requires |address| == 25 && |LockBytes(timelock)| <= 255 && |pubkey| <= 255 && |signature| <= 255
    ensures ScriptEval(env, P2pkhInput(pubkey, signature), P2pkhOutput(address, timelock)) <==>
              && signature != [] && pubkey != [] && Passed(env, timelock)
              && env.hash160(pubkey) == address[1..21] && env.keyValid(pubkey) && env.sigValid(pubkey, signature)
  {
    hide Execute, Push, Lock, IsMultiSig, Passed;
    var tail := [OP_DUP] + ([OP_HASH160] + (Push(address[1..21]) + ([OP_EQUALVERIFY] + [OP_CHECKSIG])));
    var script := Lock(timelock) + tail;
    assert P2pkhOutput(address, timelock) == script;
    assert P2pkhInput(pubkey, signature) + script == Push(signature) + (Push(pubkey) + script);
    RunPush(env, signature, Push(pubkey) + script, []);
    assert [] + [Data(signature)] == [Data(signature)];
    RunPush(env, pubkey, script, [Data(signature)]);
    assert [Data(signature)] + [Data(pubkey)] == [Data(signature), Data(pubkey)];
    RunLock(env, timelock, tail, [Data(signature), Data(pubkey)]);
    var s := [Data(signature), Data(pubkey)];
    RunP2pkhTail(env, address[1..21], s);
    assert Top(s) == Data(pubkey) && Top(Pop(s, 1)) == Data(signature);
    P2pkhIsNotMultiSig(address, timelock);
  }

  /** The bytes of the output scripts without a timelock. */
  lemma {:induction false} OutputBytes(address: bytes)
    requires |address| == 25
    ensures P2pkhOutput(address, NoLock) == [0x76, 0xa9, 20] + address[1..21] + [0x88, 0xac]
    ensures MultiSigOutput(address, NoLock) == [0xa9, 20] + address[1..21] + [0x87]
  {
  }

  // ---- any input that runs on its own

  lemma {:induction false} PushMore(data: bytes, more: bytes)
    requires data != [] && IsPush(data[0]) && ReadPush(data).Some?
    ensures ReadPush(data + more) == Some((ReadPush(data).value.0, ReadPush(data).value.1 + more))
  {
    var start := if data[0] == OP_PUSHDATA1 then 2 else 1;
    var length: nat := data[start - 1];
    var end := start + length;
    assert (data + more)[start..end] == data[start..end] && (data + more)[end..] == data[end..] + more;
  }

  /** What follows a script that runs on its own starts on the stack that it leaves. */
  lemma {:induction false} RunFront(env: Env, front: bytes, back: bytes, s: Stack)
    requires Execute(env, front, s).Some?
    ensures Execute(env, front + back, s) == Execute(env, back, Execute(env, front, s).value)
    decreases |front|
  {
    hide Operation, ReadPush;
    if front == [] {
      assert front + back == back;
    } else if IsPush(front[0]) {
      PushMore(front, back);
      var (x, rest) := ReadPush(front).value;
      RunFront(env, rest, back, s + [Data(x)]);
    } else {
      assert (front + back)[1..] == front[1..] + back;
      RunFront(env, front[1..], back, Operation(env, front[0], s).value);
    }
  }

  /** On top are a well-formed key with the given hash and, below it, a valid signature of it. */
  predicate Unlocks(env: Env, hash: bytes, s: Stack) {
    && |s| >= 2 && Top(s).Data? && Top(Pop(s, 1)).Data?
    && env.hash160(Top(s).b) == hash && env.keyValid(Top(s).b) && env.sigValid(Top(s).b, Top(Pop(s, 1)).b)
  }

  /** Any input that runs on its own spends a P2PKH output exactly if the timelock is passed and it
      leaves the key of the address and its signature on top. */
  lemma {:induction false} P2pkhAcceptsIff(env: Env, address: bytes, timelock: Timelock, input: bytes)
    requires |address| == 25 && |LockBytes(timelock)| <= 255 && Execute(env, input, []).Some?
    ensures ScriptEval(env, input, P2pkhOutput(address, timelock))
       <==> Passed(env, timelock) && Unlocks(env, address[1..21], Execute(env, input, []).value)
  {
    hide Execute, Push, Lock, IsMultiSig, Passed;
    var tail := [OP_DUP] + ([OP_HASH160] + (Push(address[1..21]) + ([OP_EQUALVERIFY] + [OP_CHECKSIG])));
    assert P2pkhOutput(address, timelock) == Lock(timelock) + tail;
    var s := Execute(env, input, []).value;
    RunFront(env, input, P2pkhOutput(address, timelock), []);
    RunLock(env, timelock, tail, s);
    RunP2pkhTail(env, address[1..21], s);
    P2pkhIsNotMultiSig(address, timelock);
  }

  // ---- multiple signatures

  /** Signature number k is valid for key number m[k], and later signatures take later keys. */
  ghost predicate Assigned(env: Env, signatures: seq<bytes>, keys: seq<bytes>, m: seq<nat>) {
    && |m| == |signatures|
    && (forall k | 0 <= k < |m| :: m[k] < |keys| && env.sigValid(keys[m[k]], signatures[k]))
    && forall j, k | 0 <= j < k < |m| :: m[j] < m[k]
  }

  ghost predicate Assignable(env: Env, signatures: seq<bytes>, keys: seq<bytes>) {
    exists m :: Assigned(env, signatures, keys, m)
  }

  function AllData(items: seq<bytes>): (r: Stack)
    ensures |r| == |items| && forall i | 0 <= i < |r| :: r[i] == Data(items[i])
  {
    seq(|items|, i requires 0 <= i < |items| => Data(items[i]))
  }

  predicate WellFormed(env: Env, keys: seq<bytes>) { forall k | k in keys :: env.keyValid(k) }

  /** The scan stops at the first key that fits or that is malformed. */
  lemma {:induction false} FirstKeyIsFirst(env: Env, signature: bytes, keys: seq<bytes>) returns (stop: nat)
    ensures stop <= |keys| && WellFormed(env, keys[..stop]) && forall i | 0 <= i < stop :: !env.sigValid(keys[i], signature)
    ensures match FirstKey(env, Data(signature), AllData(keys))
            case None => stop < |keys| && !env.keyValid(keys[stop])
            case Some(r) => r == stop && (stop < |keys| ==> env.keyValid(keys[stop]) && env.sigValid(keys[stop], signature))
    decreases |keys|
  {
    stop := 0;
    if keys != [] {
      var rest := FirstKeyIsFirst(env, signature, keys[1..]);
      assert AllData(keys)[1..] == AllData(keys[1..]);
      if env.keyValid(keys[0]) && !env.sigValid(keys[0], signature) {
        stop := rest + 1;
        assert keys[..stop] == [keys[0]] + keys[1..][..rest];
      }
    }
  }

  /** The first keys, up to some number, are all well formed, and the signatures can be assigned
      among them. */
  ghost predicate AssignableEarly(env: Env, signatures: seq<bytes>, keys: seq<bytes>) {
    exists n :: 0 <= n <= |keys| && WellFormed(env, keys[..n]) && Assignable(env, signatures, keys[..n])
  }

  /** The scan succeeds exactly if the signatures can be assigned among well-formed keys at the
      front, and denies exactly if all keys are well formed and there is no assignment. Otherwise
      a malformed key stops it. */
  lemma {:induction false} GreedyIsExact(env: Env, signatures: seq<bytes>, keys: seq<bytes>)
    ensures Greedy(env, AllData(signatures), AllData(keys)) == Some(true) <==> AssignableEarly(env, signatures, keys)
    ensures Greedy(env, AllData(signatures), AllData(keys)) == Some(false) <==> WellFormed(env, keys) && !Assignable(env, signatures, keys)
    decreases |signatures|
  {
    hide FirstKey, Assignable, WellFormed;
    if signatures == [] {
      NothingToAssign(env, keys);
    } else {
      var s := signatures[0];
      var stop := FirstKeyIsFirst(env, s, keys);
      assert AllData(signatures)[1..] == AllData(signatures[1..]);
      if FirstKey(env, Data(s), AllData(keys)) == Some(stop) && stop < |keys| {
        var rest := keys[stop + 1..];
        assert AllData(keys)[stop + 1..] == AllData(rest);
        GreedyIsExact(env, signatures[1..], rest);
        GreedyStep(env, signatures, keys, stop);
        EarlyStep(env, signatures, keys, stop);
      } else {
        NoKeyFits(env, signatures, keys, stop);
      }
    }
  }

  lemma {:induction false} NothingToAssign(env: Env, keys: seq<bytes>)
    ensures AssignableEarly(env, [], keys) && Assignable(env, [], keys)
  {
    assert Assigned(env, [], keys[..0], []) && Assigned(env, [], keys, []);
    assert WellFormed(env, keys[..0]) && Assignable(env, [], keys[..0]);
  }

  /** No key before `stop` fits the first signature, and `stop` is the end or a malformed key. */
  lemma {:induction false} NoKeyFits(env: Env, signatures: seq<bytes>, keys: seq<bytes>, stop: nat)
    requires signatures != [] && stop <= |keys| && WellFormed(env, keys[..stop]) && (stop < |keys| ==> !env.keyValid(keys[stop]))
    requires forall i | 0 <= i < stop :: !env.sigValid(keys[i], signatures[0])
    ensures !AssignableEarly(env, signatures, keys)
    ensures WellFormed(env, keys) <==> stop == |keys|
    ensures stop == |keys| ==> !Assignable(env, signatures, keys)
  {
    assert keys[..|keys|] == keys;
    forall n | stop < n <= |keys|
      ensures !WellFormed(env, keys[..n])
    {
      assert keys[..n][stop] in keys[..n];
    }
    forall n, m | 0 <= n <= stop
      ensures !Assigned(env, signatures, keys[..n], m)
    {
    }
    forall m
      ensures stop == |keys| ==> !Assigned(env, signatures, keys, m)
    {
    }
  }

  lemma {:induction false} EarlyStep(env: Env, signatures: seq<bytes>, keys: seq<bytes>, i: nat)
    requires signatures != [] && i < |keys| && env.sigValid(keys[i], signatures[0]) && env.keyValid(keys[i]) && WellFormed(env, keys[..i])
    requires forall k | 0 <= k < i :: !env.sigValid(keys[k], signatures[0])
    ensures AssignableEarly(env, signatures, keys) <==> AssignableEarly(env, signatures[1..], keys[i + 1..])
    ensures WellFormed(env, keys) <==> WellFormed(env, keys[i + 1..])
  {
    hide Assignable;
    var rest := keys[i + 1..];
    assert keys == keys[..i] + [keys[i]] + rest;
    if AssignableEarly(env, signatures, keys) {
      var n :| 0 <= n <= |keys| && WellFormed(env, keys[..n]) && Assignable(env, signatures, keys[..n]);
      KeyNeeded(env, signatures, keys[..n], i);
      GreedyStep(env, signatures, keys[..n], i);
      assert keys[..n][i + 1..] == rest[..n - i - 1];
      assert WellFormed(env, rest[..n - i - 1]);
    }
    if AssignableEarly(env, signatures[1..], rest) {
      var n :| 0 <= n <= |rest| && WellFormed(env, rest[..n]) && Assignable(env, signatures[1..], rest[..n]);
      var front := keys[..n + i + 1];
      assert front[i + 1..] == rest[..n] && front == keys[..i] + [keys[i]] + rest[..n];
      GreedyStep(env, signatures, front, i);
      assert WellFormed(env, front);
    }
  }

  lemma {:induction false} KeyNeeded(env: Env, signatures: seq<bytes>, keys: seq<bytes>, i: nat)
    requires signatures != [] && Assignable(env, signatures, keys) && forall k | 0 <= k < i && k < |keys| :: !env.sigValid(keys[k], signatures[0])
    ensures i < |keys|
  {
    var m :| Assigned(env, signatures, keys, m);
    assert env.sigValid(keys[m[0]], signatures[0]);
  }

  lemma {:induction false} RestAssignable(env: Env, signatures: seq<bytes>, keys: seq<bytes>, i: nat, m: seq<nat>)
    requires signatures != [] && i < |keys| && Assigned(env, signatures, keys, m) && i <= m[0]
    ensures Assignable(env, signatures[1..], keys[i + 1..])
  {
    var n := seq(|m| - 1, k requires 0 <= k < |m| - 1 => assert m[0] < m[k + 1]; m[k + 1] - i - 1);
    assert Assigned(env, signatures[1..], keys[i + 1..], n);
  }

  lemma {:induction false} WholeAssignable(env: Env, signatures: seq<bytes>, keys: seq<bytes>, i: nat, n: seq<nat>)
    requires signatures != [] && i < |keys| && env.sigValid(keys[i], signatures[0]) && Assigned(env, signatures[1..], keys[i + 1..], n)
    ensures Assignable(env, signatures, keys)
  {
    var m := [i] + seq(|n|, k requires 0 <= k < |n| => n[k] + i + 1);
    forall k | 1 <= k < |m|
      ensures m[k] < |keys| && env.sigValid(keys[m[k]], signatures[k])
    {
      assert keys[i + 1..][n[k - 1]] == keys[m[k]] && signatures[1..][k - 1] == signatures[k];
    }
    assert Assigned(env, signatures, keys, m);
  }

  /** Taking the first key that fits loses no assignment. */
  lemma {:induction false} GreedyStep(env: Env, signatures: seq<bytes>, keys: seq<bytes>, i: nat)
    requires signatures != [] && i < |keys| && env.sigValid(keys[i], signatures[0])
    requires forall k | 0 <= k < i :: !env.sigValid(keys[k], signatures[0])
    ensures Assignable(env, signatures, keys) <==> Assignable(env, signatures[1..], keys[i + 1..])
  {
    if Assignable(env, signatures, keys) {
      var m :| Assigned(env, signatures, keys, m);
      assert env.sigValid(keys[m[0]], signatures[0]);
      RestAssignable(env, signatures, keys, i, m);
    }
    if Assignable(env, signatures[1..], keys[i + 1..]) {
      var n :| Assigned(env, signatures[1..], keys[i + 1..], n);
      WholeAssignable(env, signatures, keys, i, n);
    }
  }

  lemma {:induction false} FlippedAssignment(env: Env, signatures: seq<bytes>, keys: seq<bytes>, m: seq<nat>)
    requires Assigned(env, signatures, keys, m)
    ensures Assignable(env, Flipped(signatures), Flipped(keys))
  {
    var n := seq(|m|, k requires 0 <= k < |m| => |keys| - 1 - m[|m| - 1 - k]);
    forall k | 0 <= k < |n|
      ensures n[k] < |keys| && env.sigValid(Flipped(keys)[n[k]], Flipped(signatures)[k])
    {
      assert Flipped(keys)[n[k]] == keys[m[|m| - 1 - k]];
    }
    assert Assigned(env, Flipped(signatures), Flipped(keys), n);
  }

  lemma {:induction false} FlippedTwice<T>(s: seq<T>)
    ensures Flipped(Flipped(s)) == s
  {
  }

  lemma {:induction false} AssignmentEitherWay(env: Env, signatures: seq<bytes>, keys: seq<bytes>)
    ensures Assignable(env, signatures, keys) <==> Assignable(env, Flipped(signatures), Flipped(keys))
  {
    if Assignable(env, signatures, keys) {
      var m :| Assigned(env, signatures, keys, m);
      FlippedAssignment(env, signatures, keys, m);
    }
    if Assignable(env, Flipped(signatures), Flipped(keys)) {
      var m :| Assigned(env, Flipped(signatures), Flipped(keys), m);
      FlippedAssignment(env, Flipped(signatures), Flipped(keys), m);
      FlippedTwice(signatures);
      FlippedTwice(keys);
    }
  }

  predicate NoneEmpty(items: seq<bytes>) { [] !in items }

  lemma {:induction false} RunPushAll(env: Env, items: seq<bytes>, rest: bytes, stack: Stack)
    requires forall x | x in items :: |x| <= 255
    ensures Execute(env, PushAll(items) + rest, stack)
         == if NoneEmpty(items) then Execute(env, rest, stack + AllData(items)) else None
    decreases |items|
  {
    hide Execute, Push;
    if items == [] {
      assert PushAll(items) + rest == rest && stack + AllData(items) == stack;
    } else {
      var more := PushAll(items[1..]) + rest;
      assert PushAll(items) + rest == Push(items[0]) + more;
      RunPush(env, items[0], more, stack);
      RunPushAll(env, items[1..], rest, stack + [Data(items[0])]);
      assert stack + [Data(items[0])] + AllData(items[1..]) == stack + AllData(items);
      assert items == [items[0]] + items[1..];
    }
  }

  lemma {:induction false} UnpackStep(seen: bytes, x: bytes, rest: bytes)
    requires 1 <= |x| <= 255
    ensures Unpacked(seen, Push(x) + rest) == if rest == [] then Ready(seen + x) else Unpacked(seen + Push(x), rest)
  {
    var data := Push(x) + rest;
    ReadBack(x, rest);
    assert data[..|data| - |rest|] == Push(x);
  }

  lemma {:induction false} UnpackedInput(seen: bytes, signatures: seq<bytes>, redeem: bytes)
    requires 1 <= |redeem| <= 255 && (forall x | x in signatures :: |x| <= 255) && NoneEmpty(signatures)
    ensures Unpacked(seen, MultiSigInput(redeem, signatures)) == Ready(seen + PushAll(signatures) + redeem)
    decreases |signatures|
  {
    hide Unpacked;
    var input := MultiSigInput(redeem, signatures);
    if signatures == [] {
      UnpackStep(seen, redeem, []);
      assert input == Push(redeem) + [] && PushAll(signatures) == [];
      assert seen + [] + redeem == seen + redeem;
    } else {
      var rest := MultiSigInput(redeem, signatures[1..]);
      assert input == Push(signatures[0]) + rest;
      UnpackStep(seen, signatures[0], rest);
      UnpackedInput(seen + Push(signatures[0]), signatures[1..], redeem);
      assert seen + PushAll(signatures) + redeem == (seen + Push(signatures[0])) + PushAll(signatures[1..]) + redeem;
    }
  }

  lemma {:induction false} RunHashTail(env: Env, hash: bytes, redeem: bytes, s: Stack)
    requires |hash| == 20
    ensures Execute(env, [OP_HASH160] + (Push(hash) + [OP_EQUAL]), s + [Data(redeem)])
         == Some(s + [Int(if env.hash160(redeem) == hash then 1 else 0)])
  {
    hide Execute, Push;
    var s1, s2 := s + [Data(redeem)], s + [Data(env.hash160(redeem))];
    RunOp(env, OP_HASH160, Push(hash) + [OP_EQUAL], s1);
    assert Pop(s1, 1) == s;
    RunPush(env, hash, [OP_EQUAL], s2);
    var s3 := s2 + [Data(hash)];
    assert [OP_EQUAL] + [] == [OP_EQUAL];
    RunOp(env, OP_EQUAL, [], s3);
    assert Pop(s3, 2) == s && Top(Pop(s3, 1)) == Top(s2);
    RunNothing(env, s + [Int(1)]);
    RunNothing(env, s + [Int(0)]);
  }

  /** The first pass checks the hash of the redeem script and the timelock. */
  lemma {:induction false} FirstPass(env: Env, address: bytes, timelock: Timelock, redeem: bytes, signatures: seq<bytes>)
    requires |address| == 25 && |LockBytes(timelock)| <= 255 && 1 <= |redeem| <= 255 && forall x | x in signatures :: |x| <= 255
    ensures Eval(env, MultiSigInput(redeem, signatures) + MultiSigOutput(address, timelock))
       <==> NoneEmpty(signatures) && Passed(env, timelock) && env.hash160(redeem) == address[1..21]
  {
    hide Execute, Push, Lock, LockBytes, Passed, PushAll, AllData;
    var hash := address[1..21];
    var tail := [OP_HASH160] + (Push(hash) + [OP_EQUAL]);
    var script := Lock(timelock) + tail;
    var s := [] + AllData(signatures);
    assert MultiSigInput(redeem, signatures) + MultiSigOutput(address, timelock) == PushAll(signatures) + (Push(redeem) + script);
    RunPushAll(env, signatures, Push(redeem) + script, []);
    RunPush(env, redeem, script, s);
    RunLock(env, timelock, tail, s + [Data(redeem)]);
    RunHashTail(env, hash, redeem, s);
  }

  /** The last keys of a redeem script, from some place on, are all well formed, and the signatures
      can be assigned among them. */
  ghost predicate Spendable(env: Env, signatures: seq<bytes>, keys: seq<bytes>) {
    exists n :: 0 <= n <= |keys| && WellFormed(env, keys[n..]) && Assignable(env, signatures, keys[n..])
  }

  lemma {:induction false} EarlyIsLate(env: Env, signatures: seq<bytes>, keys: seq<bytes>, n: nat)
    requires n <= |keys|
    ensures Flipped(keys)[..|keys| - n] == Flipped(keys[n..])
    ensures WellFormed(env, Flipped(keys)[..|keys| - n]) <==> WellFormed(env, keys[n..])
    ensures Assignable(env, Flipped(signatures), Flipped(keys)[..|keys| - n]) <==> Assignable(env, signatures, keys[n..])
  {
    hide Assignable;
    SameKeys(env, keys[n..]);
    AssignmentEitherWay(env, signatures, keys[n..]);
  }

  lemma {:induction false} SpendableIsEarly(env: Env, signatures: seq<bytes>, keys: seq<bytes>)
    ensures Spendable(env, signatures, keys) <==> AssignableEarly(env, Flipped(signatures), Flipped(keys))
  {
    hide Assignable, WellFormed;
    if Spendable(env, signatures, keys) {
      var n :| 0 <= n <= |keys| && WellFormed(env, keys[n..]) && Assignable(env, signatures, keys[n..]);
      EarlyIsLate(env, signatures, keys, n);
    }
    if AssignableEarly(env, Flipped(signatures), Flipped(keys)) {
      var n :| 0 <= n <= |keys| && WellFormed(env, Flipped(keys)[..n]) && Assignable(env, Flipped(signatures), Flipped(keys)[..n]);
      EarlyIsLate(env, signatures, keys, |keys| - n);
    }
  }

  /** If all keys are well formed, an assignment is all that is needed. */
  lemma {:induction false} SpendableIfWellFormed(env: Env, signatures: seq<bytes>, keys: seq<bytes>)
    requires WellFormed(env, keys)
    ensures Spendable(env, signatures, keys) <==> Assignable(env, signatures, keys)
  {
    if Spendable(env, signatures, keys) {
      var n :| 0 <= n <= |keys| && WellFormed(env, keys[n..]) && Assignable(env, signatures, keys[n..]);
      var m :| Assigned(env, signatures, keys[n..], m);
      var shifted := seq(|m|, k requires 0 <= k < |m| => m[k] + n);
      assert Assigned(env, signatures, keys, shifted);
    }
    assert keys[0..] == keys;
  }

  lemma {:induction false} CheckMultisigOf(env: Env, signatures: seq<bytes>, keys: seq<bytes>, required: nat)
    ensures var r := OpCheckMultisig(env, AllData(signatures) + [Int(required)] + AllData(keys) + [Int(|keys|)]);
            && (r.Some? ==> r.value != [] && Top(r.value) in {Int(1), Int(0)})
            && (r.Some? && Top(r.value) == Int(1) <==>
                  required <= |signatures| && Spendable(env, signatures[|signatures| - required..], keys))
            && (r.Some? && Top(r.value) == Int(0) <==>
                  required <= |signatures| && WellFormed(env, keys) && !Assignable(env, signatures[|signatures| - required..], keys))
  {
    hide Greedy, Assignable, Spendable, AssignableEarly, WellFormed, Flipped;
    SplitStack(AllData(signatures), Int(required), AllData(keys), Int(|keys|));
    if |signatures| >= required {
      var last := signatures[|signatures| - required..];
      FlippedData(last);
      FlippedData(keys);
      assert AllData(signatures)[|signatures| - required..] == AllData(last);
      GreedyIsExact(env, Flipped(last), Flipped(keys));
      SpendableIsEarly(env, last, keys);
      AssignmentEitherWay(env, last, keys);
      SameKeys(env, keys);
    }
  }

  lemma {:induction false} SplitStack(a: Stack, x: Item, b: Stack, y: Item)
    ensures var stack := a + [x] + b + [y];
            var s := Pop(stack, 1);
            && Top(stack) == y && |s| > |b| && s[|s| - |b| - 1] == x && s[|s| - |b|..] == b && Pop(s, |b| + 1) == a
  {
    var s := Pop(a + [x] + b + [y], 1);
    assert s == a + [x] + b;
  }

  lemma {:induction false} FlippedData(items: seq<bytes>)
    ensures Flipped(AllData(items)) == AllData(Flipped(items))
  {
  }

  lemma {:induction false} SameKeys(env: Env, keys: seq<bytes>)
    ensures WellFormed(env, Flipped(keys)) <==> WellFormed(env, keys)
  {
    assert forall i | 0 <= i < |keys| :: keys[i] == Flipped(keys)[|keys| - 1 - i];
  }

  /** A redeem script on top of pushed signatures comes to the multisig check. */
  lemma {:induction false} RunRedeem(env: Env, required: nat, keys: seq<bytes>, s: Stack)
    requires required <= 16 && |keys| <= 16 && (forall x | x in keys :: |x| <= 255)
    ensures Execute(env, RedeemScript(required, keys), s)
         == if NoneEmpty(keys) then OpCheckMultisig(env, s + [Int(required)] + AllData(keys) + [Int(|keys|)]) else None
  {
    hide Execute, PushAll, OpCheckMultisig;
    var tail := [OP_0 + |keys|] + [OP_CHECKMULTISIG];
    assert RedeemScript(required, keys) == [OP_0 + required] + (PushAll(keys) + tail);
    RunOp(env, OP_0 + required, PushAll(keys) + tail, s);
    var s1 := s + [Int(required)];
    RunPushAll(env, keys, tail, s1);
    var s2 := s1 + AllData(keys);
    RunOp(env, OP_0 + |keys|, [OP_CHECKMULTISIG], s2);
    assert [OP_CHECKMULTISIG] + [] == [OP_CHECKMULTISIG];
    RunOp(env, OP_CHECKMULTISIG, [], s2 + [Int(|keys|)]);
    var r := OpCheckMultisig(env, s2 + [Int(|keys|)]);
    if r.Some? {
      RunNothing(env, r.value);
    }
  }

  /** The second pass runs the redeem script on the signatures. */
  lemma {:induction false} SecondPass(env: Env, required: nat, keys: seq<bytes>, signatures: seq<bytes>)
    requires required <= 16 && |keys| <= 16 && (forall x | x in keys :: |x| <= 255) && forall x | x in signatures :: |x| <= 255
    ensures Eval(env, PushAll(signatures) + RedeemScript(required, keys))
       <==> NoneEmpty(signatures) && NoneEmpty(keys) && required <= |signatures| && Spendable(env, signatures[|signatures| - required..], keys)
  {
    hide Execute, PushAll, OpCheckMultisig, Assignable, Spendable, WellFormed, RedeemScript;
    RunPushAll(env, signatures, RedeemScript(required, keys), []);
    assert [] + AllData(signatures) == AllData(signatures);
    RunRedeem(env, required, keys, AllData(signatures));
    CheckMultisigOf(env, signatures, keys, required);
  }

  lemma {:induction false} MultiSigIsRecognised(env: Env, address: bytes, timelock: Timelock)
    requires |address| == 25 && |LockBytes(timelock)| <= 255 && Passed(env, timelock)
    ensures IsMultiSig(MultiSigOutput(address, timelock))
  {
    var script := MultiSigOutput(address, timelock);
    var lockless := [OP_HASH160] + Push(address[1..21]) + [OP_EQUAL];
    if LockBytes(timelock) == [] {
      assert script == lockless;
    } else {
      assert script == Lock(timelock) + lockless;
      assert script[..6] == Lock(timelock) && script[6..] == lockless;
    }
  }

  // ---- any input of pushes

  /** What a run of whole pushes pushes. */
  function Pushed(data: bytes): (items: seq<bytes>)
    requires OnlyPushes(data)
    ensures items == [] <==> data == []
    decreases |data|
  {
    if data == [] then [] else [ReadPush(data).value.0] + Pushed(ReadPush(data).value.1)
  }

  lemma {:induction false} RunPushes(env: Env, data: bytes, s: Stack)
    requires OnlyPushes(data)
    ensures Execute(env, data, s) == Some(s + AllData(Pushed(data)))
    decreases |data|
  {
    hide ReadPush;
    if data == [] {
      assert s + AllData([]) == s;
    } else {
      var (x, rest) := ReadPush(data).value;
      RunPushes(env, rest, s + [Data(x)]);
      assert s + [Data(x)] + AllData(Pushed(rest)) == s + AllData([x] + Pushed(rest));
    }
  }

  function Last(items: seq<bytes>): bytes
    requires items != []
  {
    items[|items| - 1]
  }

  function Others(items: seq<bytes>): seq<bytes>
    requires items != []
  {
    items[..|items| - 1]
  }

  lemma {:induction false} FirstPush(data: bytes)
    requires OnlyPushes(data) && data != []
    ensures IsPush(data[0]) && ReadPush(data).Some?
    ensures var (x, rest) := ReadPush(data).value;
            OnlyPushes(rest) && ReadPush(data[..|data| - |rest|]) == Some((x, [])) && Pushed(data) == [x] + Pushed(rest)
  {
    var rest := ReadPush(data).value.1;
    PushPrefix(data, |data| - |rest|);
    assert rest[..0] == [];
  }

  /** Running what was unpacked runs the last push as a script on top of the others. */
  lemma {:induction false} RunUnpacked(env: Env, seen: bytes, data: bytes, s: Stack)
    requires OnlyPushes(data) && data != [] && Execute(env, seen, []) == Some(s)
    ensures Unpacked(seen, data).Ready?
    ensures Execute(env, Unpacked(seen, data).data, []) == Execute(env, Last(Pushed(data)), s + AllData(Others(Pushed(data))))
    decreases |data|
  {
    hide ReadPush, Execute, AllData, OnlyPushes;
    FirstPush(data);
    var (x, rest) := ReadPush(data).value;
    var c := |data| - |rest|;
    if rest == [] {
      assert Others([x]) == [] && AllData([]) == [];
      assert s + AllData(Others([x])) == s && Last([x]) == x;
      RunFront(env, seen, x, []);
    } else {
      RunOnePush(env, seen, data[..c], x, s);
      RunUnpacked(env, seen + data[..c], rest, s + [Data(x)]);
      var more := Pushed(rest);
      assert Last([x] + more) == Last(more) && Others([x] + more) == [x] + Others(more);
      assert s + [Data(x)] + AllData(Others(more)) == s + AllData([x] + Others(more));
    }
  }

  lemma {:induction false} RunOnePush(env: Env, seen: bytes, push: bytes, x: bytes, s: Stack)
    requires Execute(env, seen, []) == Some(s) && push != [] && IsPush(push[0]) && ReadPush(push) == Some((x, []))
    ensures Execute(env, seen + push, []) == Some(s + [Data(x)])
  {
    RunFront(env, seen, push, []);
  }

  /** The first pass over any input that runs on its own. */
  lemma {:induction false} FirstPassIff(env: Env, address: bytes, timelock: Timelock, input: bytes)
    requires |address| == 25 && |LockBytes(timelock)| <= 255 && Execute(env, input, []).Some?
    ensures var s := Execute(env, input, []).value;
            Eval(env, input + MultiSigOutput(address, timelock)) <==>
              Passed(env, timelock) && s != [] && Top(s).Data? && env.hash160(Top(s).b) == address[1..21]
  {
    hide Execute, Push, Lock, Passed;
    var s := Execute(env, input, []).value;
    var tail := [OP_HASH160] + (Push(address[1..21]) + [OP_EQUAL]);
    assert MultiSigOutput(address, timelock) == Lock(timelock) + tail;
    RunFront(env, input, MultiSigOutput(address, timelock), []);
    RunLock(env, timelock, tail, s);
    RunOp(env, OP_HASH160, Push(address[1..21]) + [OP_EQUAL], s);
    if s != [] && Top(s).Data? {
      assert Pop(s, 1) + [Top(s)] == s;
      RunHashTail(env, address[1..21], Top(s).b, Pop(s, 1));
    }
  }

  /** Any input of whole pushes spends a MultiSig output exactly if the timelock is passed, the last
      push hashes to the address and, run as a script on top of the others, is satisfied. */
  lemma {:induction false} MultiSigAcceptsIff(env: Env, address: bytes, timelock: Timelock, input: bytes)
    requires |address| == 25 && |LockBytes(timelock)| <= 255 && OnlyPushes(input)
    ensures ScriptEval(env, input, MultiSigOutput(address, timelock)) <==>
              && input != [] && Passed(env, timelock) && env.hash160(Last(Pushed(input))) == address[1..21]
              && var r := Execute(env, Last(Pushed(input)), AllData(Others(Pushed(input))));
                 r.Some? && (r.value == [] || Top(r.value) != Int(0))
  {
    hide Execute, OnlyPushes, Pushed, Unpacked, IsMultiSig, Passed, MultiSigOutput, LockBytes;
    var items := Pushed(input);
    RunPushes(env, input, []);
    assert [] + AllData(items) == AllData(items);
    FirstPassIff(env, address, timelock, input);
    if input != [] && Passed(env, timelock) {
      assert Top(AllData(items)) == Data(Last(items));
      MultiSigIsRecognised(env, address, timelock);
      RunNothing(env, []);
      RunUnpacked(env, [], input, []);
      assert [] + AllData(Others(items)) == AllData(Others(items));
    }
  }

  /** The evaluation does fail to come to an end: a number before the right redeem script is enough. */
  lemma {:induction false} EvaluationCanHang(env: Env, address: bytes, redeem: bytes)
    requires |address| == 25 && 1 <= |redeem| <= 255 && env.hash160(redeem) == address[1..21]
    ensures var input, output := [OP_0 + 1] + Push(redeem), MultiSigOutput(address, NoLock);
            Eval(env, input + output) && IsMultiSig(output) && StopsPushing(input)
  {
    hide Execute, Push, IsMultiSig, MultiSigOutput;
    var input := [OP_0 + 1] + Push(redeem);
    var s := [Int(1)] + [Data(redeem)];
    assert Push(redeem) + [] == Push(redeem) && [] + [Int(1)] == [Int(1)];
    RunOp(env, OP_0 + 1, Push(redeem), []);
    RunPush(env, redeem, [], [Int(1)]);
    RunNothing(env, s);
    FirstPassIff(env, address, NoLock, input);
    MultiSigIsRecognised(env, address, NoLock);
    assert OnlyPushes(input[..0]) && !IsPush(input[0]);
  }

  /** A spend built for an M-of-N address is accepted exactly if signatures and keys are not empty,
      the redeem script hashes to the address, the timelock is passed, and the last M signatures
      can be assigned, in order, among the last keys, from some place on, that are all well formed. */
  lemma {:induction false} MultiSigSpend(env: Env, address: bytes, timelock: Timelock, required: nat, keys: seq<bytes>, signatures: seq<bytes>)
    requires |address| == 25 && |LockBytes(timelock)| <= 255 && required <= 16 && |keys| <= 16
    requires (forall x | x in keys :: |x| <= 255) && (forall x | x in signatures :: |x| <= 255) && |RedeemScript(required, keys)| <= 255
    ensures ScriptEval(env, MultiSigInput(RedeemScript(required, keys), signatures), MultiSigOutput(address, timelock)) <==>
              && NoneEmpty(signatures) && NoneEmpty(keys) && Passed(env, timelock)
              && env.hash160(RedeemScript(required, keys)) == address[1..21]
              && required <= |signatures| && Spendable(env, signatures[|signatures| - required..], keys)
  {
    hide Eval, PushAll, Spendable, IsMultiSig, Unpacked, Passed, MultiSigOutput, MultiSigInput, LockBytes;
    var redeem := RedeemScript(required, keys);
    assert |redeem| >= 1;
    hide RedeemScript;
    FirstPass(env, address, timelock, redeem, signatures);
    if NoneEmpty(signatures) && Passed(env, timelock) {
      MultiSigIsRecognised(env, address, timelock);
      UnpackedInput([], signatures, redeem);
      assert [] + PushAll(signatures) + redeem == PushAll(signatures) + redeem;
      SecondPass(env, required, keys, signatures);
    }
  }
}
