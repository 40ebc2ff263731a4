/** Merkle roots and coinbase paths over any hash function. */
module Merkle {
  import opened Bytes

  function Combine(sha: bytes -> bytes, left: bytes, right: bytes): bytes {
    sha(Reversed(left) + Reversed(right))
  }

  /** A level with an odd number of nodes repeats its last one. */
  function Padded(level: seq<bytes>): (r: seq<bytes>)
    requires level != []
    ensures |r| % 2 == 0 && |level| <= |r| <= |level| + 1
  {
    if |level| % 2 == 1 then level + [level[|level| - 1]] else level
  }

  function PairUp(sha: bytes -> bytes, level: seq<bytes>): (r: seq<bytes>)
    requires |level| % 2 == 0
    ensures |r| == |level| / 2
  {
    if level == [] then [] else [Combine(sha, level[0], level[1])] + PairUp(sha, level[2..])
  }

  function Root(sha: bytes -> bytes, level: seq<bytes>): bytes
    requires level != []
    decreases |level|
  {
    if |level| == 1 then level[0] else Root(sha, PairUp(sha, Padded(level)))
  }

  // ---- which tree it is

  function Pow2(n: nat): (p: nat)
    ensures p > 0
  {
    if n == 0 then 1 else 2 * Pow2(n - 1)
  }

  /** A pair hashes its left node and then its right one, each byte by byte from the end. */
  lemma {:induction false} RootOfTwo(sha: bytes -> bytes, left: bytes, right: bytes)
    ensures Root(sha, [left, right]) == sha(Reversed(left) + Reversed(right))
  {
    assert [left, right][2..] == [];
    assert PairUp(sha, [left, right]) == [Combine(sha, left, right)];
  }

  lemma {:induction false} PairUpJoins(sha: bytes -> bytes, l: seq<bytes>, r: seq<bytes>)
    requires |l| % 2 == 0 && |r| % 2 == 0
    ensures PairUp(sha, l + r) == PairUp(sha, l) + PairUp(sha, r)
    decreases |l|
  {
    hide Combine;
    if l == [] {
      assert l + r == r;
    } else {
      assert (l + r)[2..] == l[2..] + r;
      PairUpJoins(sha, l[2..], r);
    }
  }

  /** Two full trees of one height side by side: the root hashes the left root and the right one. */
  lemma {:induction false} RootOfHalves(sha: bytes -> bytes, l: seq<bytes>, r: seq<bytes>, height: nat)
    requires |l| == |r| == Pow2(height)
    ensures Root(sha, l + r) == sha(Reversed(Root(sha, l)) + Reversed(Root(sha, r)))
    decreases height
  {
    hide PairUp;
    if height == 0 {
      assert l + r == [l[0], r[0]];
      RootOfTwo(sha, l[0], r[0]);
    } else {
      PairUpJoins(sha, l, r);
      RootOfHalves(sha, PairUp(sha, l), PairUp(sha, r), height - 1);
    }
  }

  /** An odd level has the root of the level with its last node repeated. */
  lemma {:induction false} RootOfOdd(sha: bytes -> bytes, level: seq<bytes>)
    requires |level| % 2 == 1 && |level| > 1
    ensures Root(sha, level) == Root(sha, level + [level[|level| - 1]])
  {
    hide PairUp;
    assert Padded(level) == Padded(level + [level[|level| - 1]]);
  }

  /** The siblings of the leftmost node on its way up, after those already found. */
  function PathFrom(sha: bytes -> bytes, level: seq<bytes>, found: seq<bytes>): seq<bytes>
    decreases |level|
  {
    if level == [] then []
    else if |level| == 1 then found
    else PathFrom(sha, PairUp(sha, Padded(level)), found + [Padded(level)[1]])
  }

  /** The coinbase is not known yet: an empty placeholder stands for it. */
  function PathForCoinbase(sha: bytes -> bytes, leaves: seq<bytes>): seq<bytes> {
    PathFrom(sha, [[]] + leaves, [])
  }

  function Fold(sha: bytes -> bytes, node: bytes, path: seq<bytes>): bytes
    decreases |path|
  {
    if path == [] then node else Fold(sha, Combine(sha, node, path[0]), path[1..])
  }

  method RootFromPath(sha: bytes -> bytes, path: seq<bytes>) returns (root: bytes)
    requires path != []
    ensures root == Fold(sha, path[0], path[1..])
  {
    var rest := path;
    while |rest| > 1
      invariant rest != [] && Fold(sha, path[0], path[1..]) == Fold(sha, rest[0], rest[1..])
    {
      var c := Combine(sha, rest[0], rest[1]);
      assert ([c] + rest[2..])[1..] == rest[1..][1..];
      rest := [c] + rest[2..];
    }
    root := rest[0];
  }

  /** The level above, without its leftmost node: it depends on the other nodes only. */
  function Above(sha: bytes -> bytes, others: seq<bytes>): (r: seq<bytes>)
    requires others != []
    ensures |r| < |others|
  {
    PairUp(sha, if |others| % 2 == 0 then others[1..] + [others[|others| - 1]] else others[1..])
  }

  function Siblings(sha: bytes -> bytes, others: seq<bytes>): seq<bytes>
    decreases |others|
  {
    if others == [] then [] else [others[0]] + Siblings(sha, Above(sha, others))
  }

  lemma {:induction false} NextLevel(sha: bytes -> bytes, first: bytes, others: seq<bytes>)
    requires others != []
    ensures Padded([first] + others)[1] == others[0]
    ensures PairUp(sha, Padded([first] + others)) == [Combine(sha, first, others[0])] + Above(sha, others)
  {
    var level := Padded([first] + others);
    assert level[2..] == if |others| % 2 == 0 then others[1..] + [others[|others| - 1]] else others[1..];
  }

  lemma {:induction false} PathIsSiblings(sha: bytes -> bytes, first: bytes, others: seq<bytes>, found: seq<bytes>)
    ensures PathFrom(sha, [first] + others, found) == found + Siblings(sha, others)
    decreases |others|
  {
    hide Combine, Above, PairUp, Padded;
    if others != [] {
      NextLevel(sha, first, others);
      PathIsSiblings(sha, Combine(sha, first, others[0]), Above(sha, others), found + [others[0]]);
    }
  }

  lemma {:induction false} FoldIsRoot(sha: bytes -> bytes, first: bytes, others: seq<bytes>)
    ensures Fold(sha, first, Siblings(sha, others)) == Root(sha, [first] + others)
    decreases |others|
  {
    hide Combine, Above, PairUp, Padded;
    if others != [] {
      NextLevel(sha, first, others);
      FoldIsRoot(sha, Combine(sha, first, others[0]), Above(sha, others));
      assert Siblings(sha, others)[1..] == Siblings(sha, Above(sha, others));
    }
  }

  /** The path found before the coinbase is known leads any coinbase to the root of the full tree. */
  lemma {:induction false} CoinbasePathGivesRoot(sha: bytes -> bytes, coinbase: bytes, leaves: seq<bytes>)
    ensures Fold(sha, coinbase, PathForCoinbase(sha, leaves)) == Root(sha, [coinbase] + leaves)
  {
    PathIsSiblings(sha, [], leaves, []);
    assert [] + Siblings(sha, leaves) == Siblings(sha, leaves);
    FoldIsRoot(sha, coinbase, leaves);
  }

  /** Two nodes that fold to one root along one path exhibit a collision of the hash. */
  lemma {:induction false} PathBindsCoinbase(sha: bytes -> bytes, a: bytes, b: bytes, path: seq<bytes>) returns (x: bytes, y: bytes)
    requires a != b && Fold(sha, a, path) == Fold(sha, b, path)
    ensures x != y && sha(x) == sha(y)
    decreases |path|
  {
    x, y := Reversed(a) + Reversed(path[0]), Reversed(b) + Reversed(path[0]);
    CombinedDiffer(a, b, path[0]);
    if sha(x) != sha(y) {
      x, y := PathBindsCoinbase(sha, sha(x), sha(y), path[1..]);
    }
  }

  lemma {:induction false} CombinedDiffer(a: bytes, b: bytes, right: bytes)
    requires a != b
    ensures Reversed(a) + Reversed(right) != Reversed(b) + Reversed(right)
  {
    if |a| == |b| {
      var i :| 0 <= i < |a| && a[i] != b[i];
      assert (Reversed(a) + Reversed(right))[|a| - 1 - i] == a[i];
      assert (Reversed(b) + Reversed(right))[|a| - 1 - i] == b[i];
    }
  }
}
