/** Byte strings and fixed-width unsigned integers in both byte orders. */
module Bytes {
  import opened Arithmetic
  import opened Collections

  type byte = x: int | 0 <= x < 256

  type bytes = seq<byte>

  function Pow256(n: nat): (p: nat)
    ensures p > 0
  {
    if n == 0 then 1 else 256 * Pow256(n - 1)
  }

  function ToLittle(x: nat, size: nat): (b: bytes)
    ensures |b| == size
  {
    if size == 0 then [] else [x % 256] + ToLittle(x / 256, size - 1)
  }

  function FromLittle(b: bytes): (x: nat)
    ensures x < Pow256(|b|)
  {
    if b == [] then 0 else b[0] + 256 * FromLittle(b[1..])
  }

  function ToBig(x: nat, size: nat): (b: bytes)
    ensures |b| == size
  {
    if size == 0 then [] else ToBig(x / 256, size - 1) + [x % 256]
  }

  function FromBig(b: bytes): (x: nat)
    ensures x < Pow256(|b|)
  {
    if b == [] then 0 else 256 * FromBig(b[..|b| - 1]) + b[|b| - 1]
  }

  lemma {:induction false} LittleRoundTrip(x: nat, size: nat)
    requires x < Pow256(size)
    ensures FromLittle(ToLittle(x, size)) == x
  {
    if size > 0 {
      LittleRoundTrip(x / 256, size - 1);
      assert ToLittle(x, size)[1..] == ToLittle(x / 256, size - 1);
    }
  }

  lemma {:induction false} LittleIsCanonical(b: bytes)
    ensures ToLittle(FromLittle(b), |b|) == b
  {
    if b != [] {
      LittleIsCanonical(b[1..]);
      assert FromLittle(b) % 256 == b[0] && FromLittle(b) / 256 == FromLittle(b[1..]);
    }
  }

  lemma {:induction false} BigRoundTrip(x: nat, size: nat)
    requires x < Pow256(size)
    ensures FromBig(ToBig(x, size)) == x
  {
    if size > 0 {
      BigRoundTrip(x / 256, size - 1);
      assert ToBig(x, size)[..size - 1] == ToBig(x / 256, size - 1);
    }
  }

  lemma {:induction false} BigIsCanonical(b: bytes)
    ensures ToBig(FromBig(b), |b|) == b
  {
    if b != [] {
      var a, last := b[..|b| - 1], b[|b| - 1];
      BigIsCanonical(a);
      assert FromBig(b) % 256 == last && FromBig(b) / 256 == FromBig(a);
      assert a + [last] == b;
    }
  }

  lemma {:induction false} Pow256Values()
    ensures Pow256(1) == 0x100 && Pow256(2) == 0x1_0000 && Pow256(4) == 0x1_0000_0000
    ensures Pow256(8) == 0x1_0000_0000_0000_0000
  {
    assert Pow256(2) == 256 * Pow256(1);
    assert Pow256(4) == 256 * Pow256(3) && Pow256(3) == 256 * Pow256(2);
    assert Pow256(8) == 256 * Pow256(7) && Pow256(7) == 256 * Pow256(6);
    assert Pow256(6) == 256 * Pow256(5) && Pow256(5) == 256 * Pow256(4);
  }

  // ---- which byte is where

  /** The digits of a number to the base 256, the most significant one first. */
  function BigEndian(x: nat, size: nat): (b: bytes)
    ensures |b| == size
  {
    seq(size, j requires 0 <= j < size => x / Pow256(size - 1 - j) % 256)
  }

  /** The least significant one first. */
  function LittleEndian(x: nat, size: nat): (b: bytes)
    ensures |b| == size
  {
    seq(size, j requires 0 <= j < size => x / Pow256(j) % 256)
  }

  lemma {:induction false} BigDigit(x: nat, size: nat, j: nat)
    requires j < size
    ensures ToBig(x, size)[j] == x / Pow256(size - 1 - j) % 256
    decreases size
  {
    if j == size - 1 {
      assert Pow256(0) == 1 && x / 1 == x;
    } else {
      var p := Pow256(size - 2 - j);
      BigDigit(x / 256, size - 1, j);
      DivideTwice(x, 256, p);
      assert Pow256(size - 1 - j) == 256 * p;
    }
  }

  lemma {:induction false} LittleDigit(x: nat, size: nat, j: nat)
    requires j < size
    ensures ToLittle(x, size)[j] == x / Pow256(j) % 256
    decreases size
  {
    if j == 0 {
      assert Pow256(0) == 1 && x / 1 == x;
    } else {
      var p := Pow256(j - 1);
      LittleDigit(x / 256, size - 1, j - 1);
      DivideTwice(x, 256, p);
      assert Pow256(j) == 256 * p;
    }
  }

  lemma {:induction false} BigIsBigEndian(x: nat, size: nat)
    ensures ToBig(x, size) == BigEndian(x, size)
  {
    hide ToBig, Pow256;
    forall j | 0 <= j < size ensures ToBig(x, size)[j] == BigEndian(x, size)[j] { BigDigit(x, size, j); }
  }

  lemma {:induction false} LittleIsLittleEndian(x: nat, size: nat)
    ensures ToLittle(x, size) == LittleEndian(x, size)
  {
    hide ToLittle, Pow256;
    forall j | 0 <= j < size ensures ToLittle(x, size)[j] == LittleEndian(x, size)[j] { LittleDigit(x, size, j); }
  }

  lemma {:induction false} OneByte(x: nat)
    requires x < 256
    ensures ToBig(x, 1) == [x] && ToLittle(x, 1) == [x]
  {
  }

  lemma {:induction false} Inside(a: bytes, b: bytes, c: bytes, i: nat, j: nat)
    requires i <= j <= |b|
    ensures (a + b + c)[|a| + i..|a| + j] == b[i..j]
  {
  }

  predicate FieldAt(b: bytes, p: nat, field: bytes) { p + |field| <= |b| && b[p..p + |field|] == field }

  /** Fields keep their place when bytes are put before and behind. */
  lemma {:induction false} FieldMoves(a: bytes, b: bytes, c: bytes, p: nat, field: bytes)
    requires FieldAt(b, p, field)
    ensures FieldAt(a + b + c, |a| + p, field)
  {
    Inside(a, b, c, p, p + |field|);
  }

  lemma {:induction false} FieldPut(a: bytes, field: bytes, c: bytes)
    ensures FieldAt(a + field + c, |a|, field)
  {
  }

  lemma {:induction false} MiddleFields(front: bytes, a: bytes, b: bytes, rest: bytes)
    ensures FieldAt(front + (a + b) + rest, |front|, a) && FieldAt(front + (a + b) + rest, |front| + |a|, b)
  {
  }

  /** Fixed-width reads fail on a buffer that is too short. */
  function ReadLittle(b: bytes, size: nat): Option<(nat, bytes)> {
    if |b| < size then None else Some((FromLittle(b[..size]), b[size..]))
  }

  function ReadBig(b: bytes, size: nat): Option<(nat, bytes)> {
    if |b| < size then None else Some((FromBig(b[..size]), b[size..]))
  }

  /** A slice takes what is there: it does not fail on a buffer that is too short. */
  function Slice(b: bytes, size: nat): (bytes, bytes) {
    if |b| < size then (b, []) else (b[..size], b[size..])
  }

  lemma {:induction false} TakeDrop(a: bytes, rest: bytes)
    ensures (a + rest)[..|a|] == a && (a + rest)[|a|..] == rest && |a + rest| == |a| + |rest|
    ensures Slice(a + rest, |a|) == (a, rest)
  {
  }

  lemma {:induction false} ReadLittleOf(x: nat, size: nat, rest: bytes)
    requires x < Pow256(size)
    ensures ReadLittle(ToLittle(x, size) + rest, size) == Some((x, rest))
  {
    LittleRoundTrip(x, size);
    TakeDrop(ToLittle(x, size), rest);
  }

  lemma {:induction false} ReadBigOf(x: nat, size: nat, rest: bytes)
    requires x < Pow256(size)
    ensures ReadBig(ToBig(x, size) + rest, size) == Some((x, rest))
  {
    BigRoundTrip(x, size);
    TakeDrop(ToBig(x, size), rest);
  }

  /** What a fixed-width read consumed is what writing the value gives back. */
  lemma {:induction false} ReadBigWrote(b: bytes, size: nat)
    requires size <= |b|
    ensures ToBig(FromBig(b[..size]), size) + b[size..] == b && FromBig(b[..size]) < Pow256(size)
  {
    BigIsCanonical(b[..size]);
  }

  function Reversed(b: bytes): (r: bytes)
    ensures |r| == |b| && forall i | 0 <= i < |b| :: r[i] == b[|b| - 1 - i]
  {
    seq(|b|, i requires 0 <= i < |b| => b[|b| - 1 - i])
  }

  lemma {:induction false} ReversedTwice(b: bytes)
    ensures Reversed(Reversed(b)) == b
  {
  }

  // ---- readers

  /** The outcome of a read that leaves `data` in the buffer. */
  ghost predicate Consumed<T>(spec: Option<(T, bytes)>, r: Option<T>, data: bytes) {
    match spec
    case None => r == None
    case Some((value, rest)) => r == Some(value) && data == rest
  }

  ghost function Prepend<T>(front: seq<T>, spec: Option<(seq<T>, bytes)>): Option<(seq<T>, bytes)> {
    match spec
    case None => None
    case Some((more, rest)) => Some((front + more, rest))
  }

  lemma {:induction false} PrependNothing<T>(spec: Option<(seq<T>, bytes)>)
    ensures Prepend([], spec) == spec
  {
    assert spec.Some? ==> [] + spec.value.0 == spec.value.0;
  }

  lemma {:induction false} PrependOne<T>(front: seq<T>, x: T, spec: Option<(seq<T>, bytes)>)
    ensures Prepend(front, Prepend([x], spec)) == Prepend(front + [x], spec)
  {
    assert spec.Some? ==> front + ([x] + spec.value.0) == (front + [x]) + spec.value.0;
  }
}
