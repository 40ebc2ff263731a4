/** The graph of vertices (blocks and transactions) that a node stores, and what a
    vertex reaches through its parents: its past cone, the chain of blocks behind a
    block, and the work they hold. */
module Dag {
  // A hash is only ever used as a name.
  type Hash = nat

  const GENESIS: Hash := 0

  // `work` is 2^weight: the sum of two weights is the weight of the added work.
  datatype Vertex = Vertex(isBlock: bool, work: nat, timestamp: nat, parents: seq<Hash>)

  /** What verification guarantees of a stored vertex: parents exist and are strictly
      older; a block has one block parent, in front of its transaction parents; a
      transaction has only transaction parents; the genesis block alone has no parents. */
  ghost predicate ValidVertex(d: map<Hash, Vertex>, v: Vertex) {
    && (forall p | p in v.parents :: p in d && d[p].timestamp < v.timestamp)
    && (v.isBlock ==> v.work > 0 && v.parents != [] && d[v.parents[0]].isBlock)
    && (forall i | 0 <= i < |v.parents| :: d[v.parents[i]].isBlock ==> v.isBlock && i == 0)
  }

  ghost predicate ValidDag(d: map<Hash, Vertex>) {
    && GENESIS in d && d[GENESIS].isBlock && d[GENESIS].parents == [] && d[GENESIS].work > 0
    && forall h {:trigger ValidVertex(d, d[h])} | h in d && h != GENESIS :: ValidVertex(d, d[h])
  }

  type Dag = d: map<Hash, Vertex> | ValidDag(d)
    witness map[GENESIS := Vertex(true, 1, 0, [])]

  ghost predicate IsBlock(d: Dag, h: Hash) { h in d && d[h].isBlock }

  ghost predicate IsTx(d: Dag, h: Hash) { h in d && !d[h].isBlock }

  function BlockParent(d: Dag, b: Hash): (p: Hash)
    requires IsBlock(d, b) && b != GENESIS
    ensures IsBlock(d, p) && d[p].timestamp < d[b].timestamp && p in d[b].parents
  {
    assert ValidVertex(d, d[b]);
    d[b].parents[0]
  }

  function Parents(d: Dag, h: Hash): set<Hash>
    requires h in d
  {
    set p | p in d[h].parents
  }

  /** Everything that `h` verifies, directly or indirectly, and `h` itself. */
  ghost function Cone(d: Dag, h: Hash): set<Hash>
    requires h in d
    decreases d[h].timestamp
  {
    assert h != GENESIS ==> ValidVertex(d, d[h]);
    {h} + (set p, a | p in d[h].parents && a in Cone(d, p) :: a)
  }

  /** The block and its ancestors in the block tree. */
  ghost function Chain(d: Dag, b: Hash): set<Hash>
    requires IsBlock(d, b)
    decreases d[b].timestamp
  {
    {b} + if b == GENESIS then {} else Chain(d, BlockParent(d, b))
  }

  ghost function Work(d: Dag, s: set<Hash>): nat
    requires s <= d.Keys
  {
    if s == {} then 0 else
      var x :| x in s;
      d[x].work + Work(d, s - {x})
  }

  /** The score of a block: the work of its whole past cone. */
  ghost function Score(d: Dag, b: Hash): nat
    requires b in d
  {
    ConeInDag(d, b);
    Work(d, Cone(d, b))
  }

  // ---- cones

  lemma {:induction false} ConeInDag(d: Dag, h: Hash)
    requires h in d
    ensures Cone(d, h) <= d.Keys
    decreases d[h].timestamp
  {
    assert h != GENESIS ==> ValidVertex(d, d[h]);
    forall p | p in d[h].parents { ConeInDag(d, p); }
  }

  lemma {:induction false} ConeStep(d: Dag, h: Hash, p: Hash)
    requires h in d && p in d[h].parents
    ensures p in d && d[p].timestamp < d[h].timestamp
    ensures Cone(d, p) <= Cone(d, h)
  {
    assert ValidVertex(d, d[h]);
  }

  lemma {:induction false} ConeTransitive(d: Dag, h: Hash, a: Hash)
    requires h in d && a in Cone(d, h)
    ensures a in d && Cone(d, a) <= Cone(d, h)
    ensures a != h ==> d[a].timestamp < d[h].timestamp
    decreases d[h].timestamp
  {
    assert h != GENESIS ==> ValidVertex(d, d[h]);
    if a != h {
      var p :| p in d[h].parents && a in Cone(d, p);
      ConeTransitive(d, p, a);
      ConeStep(d, h, p);
    }
  }

  lemma {:induction false} TxConeHoldsTxs(d: Dag, t: Hash, a: Hash)
    requires IsTx(d, t) && a in Cone(d, t)
    ensures IsTx(d, a)
    decreases d[t].timestamp
  {
    assert ValidVertex(d, d[t]);
    if a != t {
      var p :| p in d[t].parents && a in Cone(d, p);
      TxConeHoldsTxs(d, p, a);
    }
  }

  // ---- chains

  lemma {:induction false} ChainInCone(d: Dag, b: Hash, a: Hash)
    requires IsBlock(d, b) && a in Chain(d, b)
    ensures IsBlock(d, a) && a in Cone(d, b) && Cone(d, a) <= Cone(d, b)
    ensures a != b ==> d[a].timestamp < d[b].timestamp
    decreases d[b].timestamp
  {
    if a != b {
      var p := BlockParent(d, b);
      ChainInCone(d, p, a);
      ConeStep(d, b, p);
    }
  }

  lemma {:induction false} ChainTransitive(d: Dag, b: Hash, a: Hash)
    requires IsBlock(d, b) && a in Chain(d, b)
    ensures IsBlock(d, a) && Chain(d, a) <= Chain(d, b)
    decreases d[b].timestamp
  {
    if a != b { ChainTransitive(d, BlockParent(d, b), a); }
  }

  /** Two blocks of one chain are on each other's chain: the older on the newer's. */
  lemma {:induction false} ChainIsOrdered(d: Dag, b: Hash, x: Hash, y: Hash)
    requires IsBlock(d, b) && x in Chain(d, b) && y in Chain(d, b)
    requires IsBlock(d, x) && IsBlock(d, y) && d[x].timestamp <= d[y].timestamp
    ensures x in Chain(d, y)
    decreases d[b].timestamp
  {
    ChainInCone(d, b, x);
    ChainInCone(d, b, y);
    if y != b { ChainIsOrdered(d, BlockParent(d, b), x, y); }
  }

  lemma {:induction false} GenesisInChain(d: Dag, b: Hash)
    requires IsBlock(d, b)
    ensures GENESIS in Chain(d, b)
    decreases d[b].timestamp
  {
    if b != GENESIS { GenesisInChain(d, BlockParent(d, b)); }
  }

  // ---- work

  lemma {:induction false} WorkAdd(d: Dag, s: set<Hash>, x: Hash)
    requires s <= d.Keys && x in d && x !in s
    ensures Work(d, s + {x}) == Work(d, s) + d[x].work
    decreases s
  {
    var t := s + {x};
    var y :| y in t && Work(d, t) == d[y].work + Work(d, t - {y});
    if y == x {
      assert t - {x} == s;
    } else {
      assert t - {y} == (s - {y}) + {x};
      WorkAdd(d, s - {y}, x);
      WorkAdd(d, s - {y}, y);
      assert (s - {y}) + {y} == s;
    }
  }

  lemma {:induction false} WorkDisjoint(d: Dag, s: set<Hash>, t: set<Hash>)
    requires s <= d.Keys && t <= d.Keys && s !! t
    ensures Work(d, s + t) == Work(d, s) + Work(d, t)
    decreases t
  {
    if t == {} {
      assert s + t == s;
    } else {
      var x :| x in t;
      WorkDisjoint(d, s, t - {x});
      WorkAdd(d, s + (t - {x}), x);
      WorkAdd(d, t - {x}, x);
      assert s + (t - {x}) + {x} == s + t;
      assert (t - {x}) + {x} == t;
    }
  }

  /** A block outweighs every other block of its chain. */
  lemma {:induction false} ChainOutweighs(d: Dag, b: Hash, a: Hash)
    requires IsBlock(d, b) && a in Chain(d, b) && a != b
    ensures IsBlock(d, a) && Score(d, a) < Score(d, b)
  {
    ChainInCone(d, b, a);
    ConeInDag(d, b);
    ConeInDag(d, a);
    if b in Cone(d, a) { ConeTransitive(d, a, b); assert false; }
    var rest := Cone(d, b) - Cone(d, a) - {b};
    WorkDisjoint(d, Cone(d, a), rest);
    WorkAdd(d, Cone(d, a) + rest, b);
    assert Cone(d, a) + rest + {b} == Cone(d, b);
    assert d[b].work > 0 by { assert b != GENESIS ==> ValidVertex(d, d[b]); }
  }

  lemma {:induction false} GenesisScore(d: Dag)
    ensures Cone(d, GENESIS) == {GENESIS} && Score(d, GENESIS) == d[GENESIS].work
  {
    assert Cone(d, GENESIS) == {GENESIS};
    WorkAdd(d, {}, GENESIS);
    assert {} + {GENESIS} == {GENESIS};
  }

  // ---- a new vertex changes nothing behind the vertices already there

  ghost predicate Extends(d: Dag, h: Hash, v: Vertex) {
    h !in d && h != GENESIS && ValidVertex(d, v)
  }

  lemma {:induction false} ExtendedIsValid(d: Dag, h: Hash, v: Vertex)
    requires Extends(d, h, v)
    ensures ValidDag(d[h := v])
  {
    var e := d[h := v];
    forall x | x in e && x != GENESIS ensures ValidVertex(e, e[x]) {
      if x != h { assert ValidVertex(d, d[x]); }
    }
  }

  lemma {:induction false} ConeKept(d: Dag, e: Dag, x: Hash)
    requires x in d && d.Keys <= e.Keys && (forall y | y in d :: e[y] == d[y])
    ensures Cone(e, x) == Cone(d, x)
    decreases d[x].timestamp
  {
    assert x != GENESIS ==> ValidVertex(d, d[x]);
    forall p | p in d[x].parents ensures p in d && Cone(e, p) == Cone(d, p) { ConeKept(d, e, p); }
  }

  lemma {:induction false} ChainKept(d: Dag, e: Dag, x: Hash)
    requires IsBlock(d, x) && d.Keys <= e.Keys && (forall y | y in d :: e[y] == d[y])
    ensures Chain(e, x) == Chain(d, x)
    decreases d[x].timestamp
  {
    if x != GENESIS { ChainKept(d, e, BlockParent(d, x)); }
  }

  lemma {:induction false} WorkKept(d: Dag, e: Dag, s: set<Hash>)
    requires s <= d.Keys && d.Keys <= e.Keys && (forall y | y in d :: e[y] == d[y])
    ensures Work(e, s) == Work(d, s)
    decreases s
  {
    if s != {} {
      var x :| x in s;
      WorkKept(d, e, s - {x});
      WorkAdd(d, s - {x}, x);
      WorkAdd(e, s - {x}, x);
      assert (s - {x}) + {x} == s;
    }
  }

  lemma {:induction false} ScoreKept(d: Dag, e: Dag, x: Hash)
    requires x in d && d.Keys <= e.Keys && (forall y | y in d :: e[y] == d[y])
    ensures Score(e, x) == Score(d, x)
  {
    ConeInDag(d, x);
    ConeKept(d, e, x);
    WorkKept(d, e, Cone(d, x));
  }
}
