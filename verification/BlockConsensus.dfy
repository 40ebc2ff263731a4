/** The consensus algorithm for blocks, with the graph walks that maintain `voided_by`,
    `score` and `first_block`. Runs hold no conflicting transactions and no spent block
    rewards, so no transaction is voided and a block is voided by its own hash only.
    A walk takes the vertices that wait to be visited in any order. */
module BlockConsensus {
  import opened Collections
  import opened Dag
  import opened BestChain

  // ---- facts about the two walks towards the genesis

  /** The first-block markers that point to `block` or to an older block are exactly those
      of the transactions behind `f`. */
  ghost predicate MarkedUpTo(d: Dag, firstBlock: map<Hash, Option<Hash>>, f: Hash) {
    && IsBlock(d, f) && firstBlock.Keys == d.Keys
    && (forall t | t in d && firstBlock[t].Some? :: IsBlock(d, firstBlock[t].value))
    && forall t | IsTx(d, t) ::
         t in Cone(d, f) <==> firstBlock[t].Some? && d[firstBlock[t].value].timestamp <= d[f].timestamp
  }

  /** Every vertex that a walk has gone through has its parents used, behind `f`, or waiting. */
  ghost predicate Closed(d: Dag, f: Hash, used: set<Hash>, waiting: set<Hash>) {
    && IsBlock(d, f) && (forall t | t in used :: IsTx(d, t))
    && forall t, q | t in used && t !in Cone(d, f) && q in d[t].parents ::
         q in used || q in Cone(d, f) || q in waiting
  }

  lemma {:induction false} ClosedCoversCone(d: Dag, f: Hash, used: set<Hash>, y: Hash, x: Hash)
    requires Closed(d, f, used, {}) && y in used && x in Cone(d, y) && x !in Cone(d, f)
    ensures x in used
    decreases d[y].timestamp
  {
    assert ValidVertex(d, d[y]);
    if y in Cone(d, f) {
      ConeTransitive(d, f, y);
      assert false;
    } else if x != y {
      var p :| p in d[y].parents && x in Cone(d, p);
      if p in Cone(d, f) { ConeTransitive(d, f, p); }
      ClosedCoversCone(d, f, used, p, x);
    }
  }

  ghost function TxCone(d: Dag, h: Hash): set<Hash>
    requires h in d
  {
    set t | t in Cone(d, h) && IsTx(d, t)
  }

  lemma {:induction false} BehindBlock(d: Dag, b: Hash, x: Hash)
    requires IsBlock(d, b) && b != GENESIS && x in Cone(d, b) && x != b
    ensures x !in Cone(d, BlockParent(d, b)) ==>
      IsTx(d, x) && exists i :: 1 <= i < |d[b].parents| && IsTx(d, d[b].parents[i]) && x in Cone(d, d[b].parents[i])
  {
    assert ValidVertex(d, d[b]);
    var p :| p in d[b].parents && x in Cone(d, p);
    var i :| 0 <= i < |d[b].parents| && d[b].parents[i] == p;
    if i > 0 { TxConeHoldsTxs(d, p, x); }
  }

  /** What the walks from the transaction parents of `b` newly count is what `b` adds to the
      cone of its parent, so the added-up score is the work of the whole cone. */
  lemma {:induction false} CountedIsNew(d: Dag, f: Hash, b: Hash, before: set<Hash>, used: set<Hash>)
    requires IsBlock(d, b) && b != GENESIS && IsBlock(d, f) && f in Chain(d, BlockParent(d, b))
    requires TxCone(d, BlockParent(d, b)) - Cone(d, f) <= before <= TxCone(d, BlockParent(d, b))
    requires Closed(d, f, used, {}) && before <= used <= TxCone(d, b)
    requires forall i | 1 <= i < |d[b].parents| :: d[b].parents[i] in used
    requires forall t | t in used - before :: exists i :: 1 <= i < |d[b].parents| && t in Cone(d, d[b].parents[i])
    ensures used - before - Cone(d, f) == TxCone(d, b) - Cone(d, BlockParent(d, b))
    ensures TxCone(d, b) - Cone(d, f) <= used
    ensures forall t :: t in used - before - Cone(d, f) <==> FirstIn(d, b, t)
  {
    var p := BlockParent(d, b);
    ChainInCone(d, p, f);
    forall x | x in TxCone(d, b) && x !in Cone(d, p) ensures x in used - before - Cone(d, f) {
      BehindBlock(d, b, x);
      var i :| 1 <= i < |d[b].parents| && x in Cone(d, d[b].parents[i]);
      ClosedCoversCone(d, f, used, d[b].parents[i], x);
    }
  }

  lemma {:induction false} ScoreAddsUp(d: Dag, b: Hash, added: set<Hash>)
    requires IsBlock(d, b) && b != GENESIS && added == TxCone(d, b) - Cone(d, BlockParent(d, b))
    ensures added <= d.Keys && Score(d, b) == d[b].work + Score(d, BlockParent(d, b)) + Work(d, added)
  {
    var p := BlockParent(d, b);
    ConeInDag(d, b);
    ConeInDag(d, p);
    ConeStep(d, b, p);
    if b in Cone(d, p) { ConeTransitive(d, p, b); }
    forall x | x in Cone(d, b) && x != b && x !in Cone(d, p) ensures x in added { BehindBlock(d, b, x); }
    assert Cone(d, b) == Cone(d, p) + added + {b};
    WorkDisjoint(d, Cone(d, p), added);
    WorkAdd(d, Cone(d, p) + added, b);
  }

  /** The walk that clears the markers of `b` reaches every transaction marked with it. */
  lemma {:induction false} ClearedCoversMarked(d: Dag, b: Hash, cleared: set<Hash>, y: Hash, x: Hash)
    requires y in cleared && FirstIn(d, b, y) && FirstIn(d, b, x) && x in Cone(d, y)
    requires cleared <= d.Keys && forall t | t in cleared :: FirstIn(d, b, t)
    requires forall t, q | t in cleared && q in d[t].parents && FirstIn(d, b, q) :: q in cleared
    ensures x in cleared
    decreases d[y].timestamp
  {
    assert ValidVertex(d, d[y]);
    if x != y {
      var p :| p in d[y].parents && x in Cone(d, p);
      BetweenIsFirst(d, b, y, p, x);
      ClearedCoversMarked(d, b, cleared, p, x);
    }
  }

  lemma {:induction false} BetweenIsFirst(d: Dag, b: Hash, y: Hash, p: Hash, x: Hash)
    requires IsBlock(d, b) && (y == b || FirstIn(d, b, y)) && p in Cone(d, y) && IsTx(d, p)
    requires x in Cone(d, p) && FirstIn(d, b, x)
    ensures FirstIn(d, b, p)
  {
    ConeTransitive(d, b, y);
    if b != GENESIS && p in Cone(d, BlockParent(d, b)) {
      ConeTransitive(d, BlockParent(d, b), p);
    }
  }

  lemma {:induction false} MarkedHasRoot(d: Dag, b: Hash, x: Hash) returns (y: Hash)
    requires FirstIn(d, b, x)
    ensures y in d[b].parents && FirstIn(d, b, y) && x in Cone(d, y)
  {
    if b == GENESIS { assert false; }
    BehindBlock(d, b, x);
    var i :| 1 <= i < |d[b].parents| && IsTx(d, d[b].parents[i]) && x in Cone(d, d[b].parents[i]);
    y := d[b].parents[i];
    ConeStep(d, b, y);
    BetweenIsFirst(d, b, b, y, x);
  }

  /** State of the clearing walk: the marked transactions in `cleared` are done, and every
      marked parent of `b` or of a cleared transaction is cleared or waiting. */
  ghost predicate Clearing(d: Dag, b: Hash, marked: map<Hash, Option<Hash>>, now: map<Hash, Option<Hash>>,
                           cleared: set<Hash>, waiting: set<Hash>)
  {
    && IsBlock(d, b) && marked.Keys == now.Keys == d.Keys && waiting <= d.Keys && cleared <= d.Keys
    && (forall t | t in d :: marked[t] == Some(b) <==> FirstIn(d, b, t))
    && (forall t | t in cleared :: FirstIn(d, b, t))
    && (forall t | t in d :: now[t] == if t in cleared then None else marked[t])
    && (forall q | q in d[b].parents && FirstIn(d, b, q) :: q in cleared || q in waiting)
    && (forall t, q | t in cleared && q in d[t].parents && FirstIn(d, b, q) :: q in cleared || q in waiting)
  }

  lemma {:induction false} ClearingDone(d: Dag, b: Hash, marked: map<Hash, Option<Hash>>, now: map<Hash, Option<Hash>>, cleared: set<Hash>)
    requires Clearing(d, b, marked, now, cleared, {})
    ensures forall t | t in d :: now[t] == if marked[t] == Some(b) then None else marked[t]
  {
    forall x | x in d && FirstIn(d, b, x) ensures x in cleared {
      var y := MarkedHasRoot(d, b, x);
      ClearedCoversMarked(d, b, cleared, y, x);
    }
  }

  lemma {:induction false} ClearingStep(d: Dag, b: Hash, marked: map<Hash, Option<Hash>>, now: map<Hash, Option<Hash>>,
                     cleared: set<Hash>, waiting: set<Hash>, tx: Hash)
    requires Clearing(d, b, marked, now, cleared, waiting) && tx in waiting
    ensures now[tx] != Some(b) ==> Clearing(d, b, marked, now, cleared, waiting - {tx})
    ensures now[tx] == Some(b) ==> tx !in cleared && IsTx(d, tx)
    ensures now[tx] == Some(b) ==>
      Clearing(d, b, marked, now[tx := None], cleared + {tx}, waiting - {tx} + Parents(d, tx))
  {
    hide FirstIn, Cone;
    if now[tx] == Some(b) {
      FirstInIsTx(d, b, tx);
      assert ValidVertex(d, d[tx]);
    }
  }

  lemma {:induction false} FirstInIsTx(d: Dag, b: Hash, t: Hash)
    requires FirstIn(d, b, t)
    ensures IsTx(d, t)
  {
  }

  // ---- how markers follow the live chain

  lemma {:induction false} MarkedByLiveBlock(d: Dag, firstBlock: map<Hash, Option<Hash>>, live: set<Hash>, m: Hash, b: Hash, t: Hash)
    requires Prefix(d, live, m) && Markers(d, firstBlock, live) && b in live && t in d
    ensures firstBlock[t] == Some(b) <==> FirstIn(d, b, t)
  {
    assert Marker(d, live, t, firstBlock[t]);
    if FirstIn(d, b, t) { MarkersAreUnique(d, live, m, t, firstBlock[t], Some(b)); }
  }

  /** Clearing the markers of the newest live block leaves the markers of the rest. */
  lemma {:induction false} MarkersWithout(d: Dag, before: map<Hash, Option<Hash>>, after: map<Hash, Option<Hash>>,
                       live: set<Hash>, m: Hash, b: Hash)
    requires Prefix(d, live, m) && Markers(d, before, live) && b in live && after.Keys == d.Keys
    requires forall t | t in d :: after[t] == if before[t] == Some(b) then None else before[t]
    ensures Markers(d, after, live - {b})
  {
    forall t | t in d ensures Marker(d, live - {b}, t, after[t]) {
      assert Marker(d, live, t, before[t]);
      if before[t] == Some(b) {
        forall c | c in live - {b} ensures !FirstIn(d, c, t) {
          if FirstIn(d, c, t) { MarkersAreUnique(d, live, m, t, Some(c), Some(b)); }
        }
      }
    }
  }

  /** Marking what each block from `f` up to `b` brings in turns the markers of the chain of
      `f` into the markers of the chain of `b`. */
  lemma {:induction false} MarkersAlong(d: Dag, before: map<Hash, Option<Hash>>, after: map<Hash, Option<Hash>>, f: Hash, b: Hash)
    requires IsBlock(d, b) && f in Chain(d, b) && IsBlock(d, f)
    requires Markers(d, before, Chain(d, f)) && after.Keys == d.Keys
    requires forall t | t in d :: MarkedAlong(d, f, b, t, before[t], after[t])
    ensures Markers(d, after, Chain(d, b))
  {
    ChainTransitive(d, b, f);
    ChainInCone(d, b, f);
    forall t | t in d ensures Marker(d, Chain(d, b), t, after[t]) {
      assert Marker(d, Chain(d, f), t, before[t]);
      if after[t].None? {
        forall c | c in Chain(d, b) ensures !FirstIn(d, c, t) {
          ChainInCone(d, b, c);
          if FirstIn(d, c, t) {
            assert t in Cone(d, f);
            var g := FirstExists(d, f, t);
            assert false;
          }
        }
      }
    }
  }

  /** Transactions behind `b` but not behind `f` get as marker the block that brings them in. */
  ghost predicate MarkedAlong(d: Dag, f: Hash, b: Hash, t: Hash, before: Option<Hash>, after: Option<Hash>)
    requires IsBlock(d, b) && IsBlock(d, f)
  {
    if IsTx(d, t) && t in Cone(d, b) && t !in Cone(d, f)
    then after.Some? && after.value in Chain(d, b) && FirstIn(d, after.value, t)
    else after == before
  }

  class BlockConsensusAlgorithm {
    var dag: Dag
    var voidedBy: map<Hash, set<Hash>>
    var score: map<Hash, nat>
    var firstBlock: map<Hash, Option<Hash>>
    var bestTips: seq<Hash>

    ghost predicate Valid()
      reads this
    {
      Consistent(dag, voidedBy, score, firstBlock, bestTips)
    }

    /** A node that holds the genesis block only; the genesis transactions arrive next. */
    constructor (work: nat, timestamp: nat)
      requires work > 0
      ensures Valid() && dag == map[GENESIS := Vertex(true, work, timestamp, [])] && bestTips == [GENESIS]
    {
      var genesis := Vertex(true, work, timestamp, []);
      dag := map[GENESIS := genesis];
      voidedBy, score, firstBlock := map[GENESIS := {}], map[GENESIS := work], map[GENESIS := None];
      bestTips := [GENESIS];
      GenesisIsConsistent(map[GENESIS := genesis], work);
    }

    /** What holds at every step of an arrival. */
    ghost predicate Shape()
      reads this
    {
      OnlyOwnHashes(dag, voidedBy) && score.Keys == dag.Keys && firstBlock.Keys == dag.Keys
    }

    ghost function LiveBlocks(): set<Hash>
      reads this
      requires Shape()
    {
      Live(dag, voidedBy)
    }

    /** The newest strict ancestor of `block` that is not voided. */
    method FindFirstParentInBestChain(block: Hash) returns (f: Hash)
      requires Shape() && IsBlock(dag, block) && block != GENESIS && GENESIS in LiveBlocks()
      ensures f in LiveBlocks() && f in Chain(dag, BlockParent(dag, block))
      ensures forall a | a in LiveBlocks() && a in Chain(dag, BlockParent(dag, block)) :: a in Chain(dag, f)
    {
      f := BlockParent(dag, block);
      while voidedBy[f] != {}
        invariant IsBlock(dag, f) && f in Chain(dag, BlockParent(dag, block))
        invariant Chain(dag, f) <= Chain(dag, BlockParent(dag, block))
        invariant forall a | a in LiveBlocks() && a in Chain(dag, BlockParent(dag, block)) :: a in Chain(dag, f)
        decreases dag[f].timestamp
      {
        f := BlockParent(dag, f);
      }
    }

    /** Clears every `first_block` that points to `block`. */
    method RemoveFirstBlockMarkers(block: Hash)
      requires Shape() && IsBlock(dag, block)
      requires forall t | t in dag :: firstBlock[t] == Some(block) <==> FirstIn(dag, block, t)
      modifies this`firstBlock
      ensures firstBlock.Keys == dag.Keys
      ensures forall t | t in dag ::
        firstBlock[t] == if old(firstBlock)[t] == Some(block) then None else old(firstBlock)[t]
    {
      assert block != GENESIS ==> ValidVertex(dag, dag[block]);
      ghost var marked := firstBlock;
      ghost var cleared: set<Hash> := {};
      var toVisit := Parents(dag, block);
      while toVisit != {}
        invariant Clearing(dag, block, marked, firstBlock, cleared, toVisit)
        decreases dag.Keys - cleared, toVisit
      {
        var tx :| tx in toVisit;
        ClearingStep(dag, block, marked, firstBlock, cleared, toVisit, tx);
        toVisit := toVisit - {tx};
        if dag[tx].isBlock {
          continue;
        }
        if firstBlock[tx] != Some(block) {
          continue;
        }
        firstBlock := firstBlock[tx := None];
        cleared := cleared + {tx};
        toVisit := toVisit + Parents(dag, tx);
      }
      ClearingDone(dag, block, marked, firstBlock, cleared);
    }

    /** Adds the block's own hash to its `voided_by`. */
    method AddVoidedBy(block: Hash)
      requires Shape() && IsBlock(dag, block)
      modifies this`voidedBy
      ensures Shape() && voidedBy == old(voidedBy)[block := {block}]
      ensures LiveBlocks() == old(LiveBlocks()) - {block}
    {
      ghost var before := voidedBy;
      assert before[block] == {} || before[block] == {block};
      if block !in voidedBy[block] {
        assert voidedBy[block] + {block} == {block};
        voidedBy := voidedBy[block := voidedBy[block] + {block}];
      }
      assert voidedBy == before[block := {block}];
      LiveWithout(dag, before, block);
    }

    /** Voids a live block: its markers go with it. */
    method MarkAsVoided(block: Hash, ghost m: Hash)
      requires Shape() && block in LiveBlocks()
      requires Prefix(dag, LiveBlocks(), m) && Markers(dag, firstBlock, LiveBlocks())
      modifies this`voidedBy, this`firstBlock
      ensures Shape() && LiveBlocks() == old(LiveBlocks()) - {block}
      ensures Markers(dag, firstBlock, LiveBlocks())
    {
      ghost var live, marked := LiveBlocks(), firstBlock;
      forall t | t in dag ensures firstBlock[t] == Some(block) <==> FirstIn(dag, block, t) {
        MarkedByLiveBlock(dag, firstBlock, live, m, block, t);
      }
      RemoveFirstBlockMarkers(block);
      MarkersWithout(dag, marked, firstBlock, live, m, block);
      AddVoidedBy(block);
    }

    /** Voids what is live above the fork where the chain of `block` leaves the live chain. */
    method AddVoidedByToMultipleChains(block: Hash, heads: seq<Hash>) returns (ghost fork: Hash)
      requires Shape() && IsBlock(dag, block) && block != GENESIS && heads != []
      requires forall i | 0 <= i < |heads| :: Prefix(dag, LiveBlocks(), heads[i])
      requires Markers(dag, firstBlock, LiveBlocks())
      modifies this`voidedBy, this`firstBlock
      ensures Shape() && IsBlock(dag, fork) && fork in Chain(dag, BlockParent(dag, block))
      ensures LiveBlocks() == Chain(dag, fork) == old(LiveBlocks()) * Chain(dag, BlockParent(dag, block))
      ensures Markers(dag, firstBlock, LiveBlocks())
    {
      assert Prefix(dag, LiveBlocks(), heads[0]);
      var f := FindFirstParentInBestChain(block);
      fork := f;
      ghost var live := LiveBlocks();
      ForkIsMeet(dag, live, heads[0], BlockParent(dag, block), f);
      var i := 0;
      while i < |heads|
        invariant 0 <= i <= |heads| && Shape()
        invariant LiveBlocks() == if i == 0 then live else Chain(dag, f)
        invariant Markers(dag, firstBlock, LiveBlocks())
      {
        ForkIsPrefix(dag, live, heads[i], f);
        VoidDownTo(heads[i], f);
        i := i + 1;
      }
    }

    method VoidDownTo(start: Hash, f: Hash)
      requires Shape() && Prefix(dag, LiveBlocks(), start) && f in LiveBlocks()
      requires Markers(dag, firstBlock, LiveBlocks())
      modifies this`voidedBy, this`firstBlock
      ensures Shape() && LiveBlocks() == Chain(dag, f)
      ensures Markers(dag, firstBlock, LiveBlocks())
    {
      hide Markers, Cone;
      var head := start;
      while dag[head].timestamp > dag[f].timestamp
        invariant Shape() && IsBlock(dag, head) && f in Chain(dag, head)
        invariant Prefix(dag, LiveBlocks(), head) && f in LiveBlocks()
        invariant Markers(dag, firstBlock, LiveBlocks())
        decreases dag[head].timestamp
      {
        if head !in voidedBy[head] {
          ghost var live := LiveBlocks();
          MarkAsVoided(head, head);
          PrefixWithoutTip(dag, live, head);
        } else {
          PrefixBelow(dag, LiveBlocks(), head);
        }
        head := BlockParent(dag, head);
      }
      ChainInCone(dag, head, f);
    }

    /** The walk from a transaction parent: adds up the work of what is neither used nor
        behind `f`, and marks it when asked to. */
    method WalkTransactions(root: Hash, block: Hash, used0: set<Hash>, mark: bool, newest: nat, ghost f: Hash)
      returns (sum: nat, used: set<Hash>)
      requires Shape() && IsTx(dag, root) && IsBlock(dag, block)
      requires MarkedUpTo(dag, firstBlock, f) && newest == dag[f].timestamp < dag[block].timestamp
      requires Closed(dag, f, used0, {})
      requires mark ==> Unmarked(dag, firstBlock, f, used0)
      modifies this`firstBlock
      ensures used0 <= used <= used0 + Cone(dag, root) && root in used
      ensures Closed(dag, f, used, {})
      ensures used <= dag.Keys && sum == Work(dag, used - used0 - Cone(dag, f))
      ensures MarkedUpTo(dag, firstBlock, f)
      ensures forall t | t in dag ::
        firstBlock[t] == if mark && t in used - used0 - Cone(dag, f) then Some(block) else old(firstBlock)[t]
      ensures mark ==> Unmarked(dag, firstBlock, f, used)
    {
      ghost var marked := firstBlock;
      var toVisit := {root};
      used, sum := used0, 0;
      while toVisit != {}
        invariant Walking(dag, root, block, f, marked, firstBlock, used0, used, toVisit, sum, mark)
        decreases dag.Keys - used, toVisit
      {
        var tx :| tx in toVisit;
        WalkingStep(dag, root, block, f, marked, firstBlock, used0, used, toVisit, sum, mark, tx);
        toVisit := toVisit - {tx};
        if tx in used {
          continue;
        }
        used := used + {tx};
        if firstBlock[tx].Some? && dag[firstBlock[tx].value].timestamp <= newest {
          continue;
        }
        if mark {
          assert firstBlock[tx].None?;
          firstBlock := firstBlock[tx := Some(block)];
        }
        sum := sum + dag[tx].work;
        toVisit := toVisit + Parents(dag, tx);
      }
    }

    /** The score of a block above the fork `f`: the blocks down to `f` first, then the
        transactions. Only `block` can be without a score. */
    method ScoreBlockDfs(block: Hash, used0: set<Hash>, mark: bool, newest: nat, ghost f: Hash)
      returns (total: nat, used: set<Hash>)
      requires Shape() && IsBlock(dag, block) && block != GENESIS && f in Chain(dag, BlockParent(dag, block))
      requires MarkedUpTo(dag, firstBlock, f) && newest == dag[f].timestamp
      requires used0 == {} && (mark ==> Unmarked(dag, firstBlock, f, {}))
      requires ScoredBehind(dag, score, block)
      modifies this`firstBlock, this`score
      ensures Shape() && total == Score(dag, block) && score == old(score)[block := total]
      ensures Closed(dag, f, used, {}) && TxCone(dag, block) - Cone(dag, f) <= used <= TxCone(dag, block)
      ensures MarkedUpTo(dag, firstBlock, f) && (mark ==> Unmarked(dag, firstBlock, f, used))
      ensures !mark ==> firstBlock == old(firstBlock)
      ensures mark ==> forall t | t in dag :: MarkedAlong(dag, f, block, t, old(firstBlock)[t], firstBlock[t])
      decreases dag[block].timestamp
    {
      hide MarkedUpTo, Unmarked, Closed, OnlyOwnHashes, Score, Cone, MarkedAlong, Chain;
      ghost var marked0 := firstBlock;
      var x;
      ChainInCone(dag, BlockParent(dag, block), f);
      x, used := ScoreParentBlock(block, used0, mark, newest, f);
      ghost var before, marked1 := used, firstBlock;
      total, used := WalkTransactionParents(block, used, dag[block].work + x, mark, newest, f);
      CountedIsNew(dag, f, block, before, used);
      ScoreAddsUp(dag, block, used - before - Cone(dag, f));
      AddedMarks(dag, block, f, before, used, marked0, marked1, firstBlock, mark);
      if score[block] == 0 {
        score := score[block := total];
      }
    }

    /** The block parent: its stored score at the fork, a recursive score above it. */
    method ScoreParentBlock(block: Hash, used0: set<Hash>, mark: bool, newest: nat, ghost f: Hash)
      returns (x: nat, used: set<Hash>)
      requires Shape() && IsBlock(dag, block) && block != GENESIS && f in Chain(dag, BlockParent(dag, block))
      requires MarkedUpTo(dag, firstBlock, f) && newest == dag[f].timestamp
      requires used0 == {} && (mark ==> Unmarked(dag, firstBlock, f, {}))
      requires ScoredBehind(dag, score, block)
      modifies this`firstBlock, this`score
      ensures Shape() && x == Score(dag, BlockParent(dag, block)) && score == old(score)
      ensures Closed(dag, f, used, {})
      ensures TxCone(dag, BlockParent(dag, block)) - Cone(dag, f) <= used <= TxCone(dag, BlockParent(dag, block))
      ensures MarkedUpTo(dag, firstBlock, f) && (mark ==> Unmarked(dag, firstBlock, f, used))
      ensures !mark ==> firstBlock == old(firstBlock)
      ensures mark ==>
        forall t | t in dag :: MarkedAlong(dag, f, BlockParent(dag, block), t, old(firstBlock)[t], firstBlock[t])
      decreases dag[block].timestamp, 0
    {
      hide MarkedUpTo, Unmarked, OnlyOwnHashes, Score, Cone;
      var parent := BlockParent(dag, block);
      ChainInCone(dag, parent, f);
      assert parent in Chain(dag, parent);
      if dag[parent].timestamp <= newest {
        x, used := score[parent], used0;
      } else {
        ScoredBehindParent(dag, score, block);
        x, used := ScoreBlockDfs(parent, used0, mark, newest, f);
      }
    }

    method WalkTransactionParents(block: Hash, before: set<Hash>, start: nat, mark: bool, newest: nat, ghost f: Hash)
      returns (total: nat, used: set<Hash>)
      requires Shape() && IsBlock(dag, block) && block != GENESIS
      requires MarkedUpTo(dag, firstBlock, f) && newest == dag[f].timestamp < dag[block].timestamp
      requires Closed(dag, f, before, {}) && before <= TxCone(dag, BlockParent(dag, block))
      requires start == dag[block].work + Score(dag, BlockParent(dag, block))
      requires mark ==> Unmarked(dag, firstBlock, f, before)
      modifies this`firstBlock
      ensures firstBlock.Keys == dag.Keys
      ensures Adding(dag, block, f, |dag[block].parents|, before, used, old(firstBlock), firstBlock, total, mark)
    {
      hide Score, Cone, Closed, Unmarked, Work, TxCone, OnlyOwnHashes;
      total, used := start, before;
      AddingStart(dag, block, f, before, firstBlock, mark);
      ghost var marked := firstBlock;
      var i := 1;
      while i < |dag[block].parents|
        invariant Adding(dag, block, f, i, before, used, marked, firstBlock, total, mark)
      {
        ghost var used', now', total' := used, firstBlock, total;
        var x;
        x, used := WalkTransactions(dag[block].parents[i], block, used, mark, newest, f);
        total := total + x;
        AddingStep(dag, block, f, i, before, used', used, marked, now', firstBlock, total', mark);
        i := i + 1;
      }
    }

    /** The score of a block, walking only above the fork from the live chain; with `mark`, the
        transactions it brings in get their first block. */
    method CalculateScore(block: Hash, mark: bool, ghost live: set<Hash>, ghost m: Hash) returns (total: nat)
      requires Shape() && IsBlock(dag, block)
      requires block != GENESIS ==> live == LiveBlocks() - {block} && Prefix(dag, live, m) && Markers(dag, firstBlock, live)
      requires block != GENESIS ==> ScoredBehind(dag, score, block) && (mark ==> live <= Chain(dag, BlockParent(dag, block)))
      modifies this`firstBlock, this`score
      ensures Shape() && total == Score(dag, block)
      ensures score == if mark || block != GENESIS then old(score)[block := total] else old(score)
      ensures !mark || block == GENESIS ==> firstBlock == old(firstBlock)
      ensures mark && block != GENESIS ==> Markers(dag, firstBlock, Chain(dag, block))
    {
      hide Score, Cone, Markers, MarkedUpTo, Unmarked, Closed, MarkedAlong, TxCone, ScoredBehind;
      if block == GENESIS {
        GenesisScore(dag);
        if mark {
          score := score[block := dag[block].work];
        }
        return dag[block].work;
      }
      var f := FindFirstParentInBestChain(block);
      ChainInCone(dag, BlockParent(dag, block), f);
      ghost var marked := firstBlock;
      MarkersAreUpTo(dag, firstBlock, live, m, f);
      if mark {
        ForkIsMeet(dag, live, m, BlockParent(dag, block), f);
        assert live == Chain(dag, f);
        NothingElseMarked(dag, firstBlock, f);
      }
      var used;
      total, used := ScoreBlockDfs(block, {}, mark, dag[f].timestamp, f);
      if mark { MarkersAlong(dag, marked, firstBlock, f, block); }
    }

    /** Takes the own hash off the voided blocks from `block` down to the live chain. */
    method RemoveVoidedByFromChain(block: Hash)
      requires Shape() && IsBlock(dag, block) && GENESIS in LiveBlocks()
      requires forall b | b in LiveBlocks() :: IsBlock(dag, b) && Chain(dag, b) <= LiveBlocks()
      modifies this`voidedBy
      ensures Shape() && LiveBlocks() == old(LiveBlocks()) + Chain(dag, block)
    {
      hide Chain, Live;
      ghost var live := LiveBlocks();
      var b := block;
      assert live + (Chain(dag, block) - Chain(dag, b)) == live;
      while b in voidedBy[b]
        invariant Unvoiding(dag, voidedBy, live, block, b)
        decreases dag[b].timestamp
      {
        UnvoidingStep(dag, voidedBy, live, block, b);
        voidedBy := voidedBy[b := voidedBy[b] - {b}];
        b := BlockParent(dag, b);
      }
      UnvoidingDone(dag, voidedBy, live, block, b);
    }

    /** What the parents of a block would pass on: their `voided_by`, except a block parent's
        own hash. Nothing does, so the block is never voided on behalf of a parent. */
    method UnionVoidedByFromParents(block: Hash) returns (union: set<Hash>)
      requires Shape() && IsBlock(dag, block) && block != GENESIS
      ensures union == {}
    {
      union := {};
      assert ValidVertex(dag, dag[block]);
      for i := 0 to |dag[block].parents|
        invariant union == {}
      {
        var parent := dag[block].parents[i];
        union := union + if dag[parent].isBlock then voidedBy[parent] - {parent} else voidedBy[parent];
      }
    }

    /** The score that the cached heads share. */
    method BestScore(heads: seq<Hash>, ghost d: Dag) returns (best: nat)
      requires Tips(d, heads) && score.Keys == dag.Keys
      requires forall h | IsBlock(d, h) :: h in score && score[h] == Score(d, h)
      ensures forall h | h in heads :: h in d && best == Score(d, h)
    {
      assert Heaviest(d, heads[0]);
      best := score[heads[0]];
      for i := 1 to |heads|
        invariant forall j | 0 <= j < i :: heads[j] in d && best == Score(d, heads[j])
      {
        assert Heaviest(d, heads[i]) && best == score[heads[i]];
      }
    }

    /** A new transaction: no block has it behind it. */
    method OnNewTransaction(tx: Hash, v: Vertex)
      requires Valid() && Extends(dag, tx, v) && !v.isBlock
      modifies this
      ensures Valid() && dag == old(dag)[tx := v] && bestTips == old(bestTips)
    {
      hide OnlyOwnHashes, Live, ExecutedBlocks, Scores, Markers, Tips, Heaviest, Executed, Score, Cone, Chain, ValidVertex;
      ExtendedIsValid(dag, tx, v);
      ArrivedTransaction(dag, dag[tx := v], tx, voidedBy, score, firstBlock, bestTips);
      dag := dag[tx := v];
      voidedBy, score, firstBlock := voidedBy[tx := {}], score[tx := 0], firstBlock[tx := None];
    }

    /** A new block, which arrives without a score and with nothing voiding it. */
    method OnNewBlock(block: Hash, v: Vertex)
      requires Valid() && Extends(dag, block, v) && v.isBlock
      modifies this
      ensures Valid() && dag == old(dag)[block := v]
      ensures Grown(old(dag), dag, block) && old(bestTips) != [] && old(bestTips)[0] in old(dag)
      ensures bestTips == NextTips(old(dag), dag, block, old(bestTips))
    {
      hide OnlyOwnHashes, Live, ExecutedBlocks, Scores, Markers, Executed, Score, Cone, Chain, ValidVertex;
      ghost var d := dag;
      ExtendedIsValid(dag, block, v);
      assert Heaviest(d, bestTips[0]);
      ArrivedBlock(dag, dag[block := v], block, voidedBy, score, firstBlock, bestTips);
      dag := dag[block := v];
      voidedBy, score, firstBlock := voidedBy[block := {}], score[block := 0], firstBlock[block := None];
      UpdateVoidedInfo(block, d);
    }

    /** Decides who is executed now that `block` is there; `d` is the graph before it. */
    method UpdateVoidedInfo(block: Hash, ghost d: Dag)
      requires Arrived(d, dag, block, voidedBy, score, firstBlock, bestTips)
      modifies this`voidedBy, this`score, this`firstBlock, this`bestTips
      ensures Valid() && Grown(d, dag, block) && old(bestTips)[0] in d
      ensures bestTips == NextTips(d, dag, block, old(bestTips))
    {
      hide Score, Cone, Chain, Heaviest, Markers, ExecutedBlocks, Live;
      var inherited := UnionVoidedByFromParents(block);
      assert block !in inherited;
      var parent := BlockParent(dag, block);
      var children := set c | c in dag && parent in dag[c].parents;
      if |children| == 1 && voidedBy[parent] == {} {
        OnlyChild(d, dag, block, children);
        ExtendTheHead(block, d);
      } else {
        OtherCases(block, d);
      }
    }

    /** Scores and marks the chain of `block` above the live chain of `fork`, and takes the
        voidance off it. (No parent passes a voidance on, so the block stays the best.) */
    method MarkAsTheBestChain(block: Hash, ghost fork: Hash)
      requires Shape() && IsBlock(dag, block) && block != GENESIS && ScoredBehind(dag, score, block)
      requires IsBlock(dag, fork) && fork in Chain(dag, BlockParent(dag, block))
      requires LiveBlocks() - {block} == Chain(dag, fork)
      requires block in LiveBlocks() ==> fork == BlockParent(dag, block)
      requires Markers(dag, firstBlock, Chain(dag, fork))
      modifies this`voidedBy, this`score, this`firstBlock
      ensures Shape() && voidedBy[block] == {} && LiveBlocks() == Chain(dag, block)
      ensures Markers(dag, firstBlock, Chain(dag, block)) && score == old(score)[block := Score(dag, block)]
    {
      hide Score, Cone, Chain, Markers, Live, Prefix, ScoredBehind;
      WinnerFork(dag, block, fork, LiveBlocks());
      var total := CalculateScore(block, true, Chain(dag, fork), fork);
      RemoveVoidedByFromChain(block);
      IsLive(dag, voidedBy, block);
    }

    /** The shortcut: `block` extends the one head of the best chain. */
    method ExtendTheHead(block: Hash, ghost d: Dag)
      requires Arrived(d, dag, block, voidedBy, score, firstBlock, bestTips)
      requires voidedBy[BlockParent(dag, block)] == {}
      requires forall c | IsBlock(d, c) && c != GENESIS :: BlockParent(d, c) != BlockParent(dag, block)
      modifies this`voidedBy, this`score, this`firstBlock, this`bestTips
      ensures Valid() && Grown(d, dag, block) && old(bestTips)[0] in d
      ensures bestTips == NextTips(d, dag, block, old(bestTips))
    {
      hide Score, Cone, Chain, Heaviest, Markers, ExecutedBlocks, Live, ScoredBehind, Scores, Tips, Consistent;
      ghost var score0, tips0 := score, bestTips;
      ExtendsTheHead(d, dag, block, voidedBy, score, firstBlock, bestTips);
      MarkAsTheBestChain(block, BlockParent(dag, block));
      if voidedBy[block] == {} {
        bestTips := [block];
      }
      NewHead(d, dag, block, voidedBy, score0, score, firstBlock, tips0);
    }

    /** All other cases: void the block, score it, and compare it with the cached heads. */
    method OtherCases(block: Hash, ghost d: Dag)
      requires Arrived(d, dag, block, voidedBy, score, firstBlock, bestTips)
      modifies this`voidedBy, this`score, this`firstBlock, this`bestTips
      ensures Valid() && Grown(d, dag, block) && old(bestTips)[0] in d
      ensures bestTips == NextTips(d, dag, block, old(bestTips))
    {
      hide Score, Cone, Chain, Heaviest, Markers, ExecutedBlocks, Live, ScoredBehind, Scores, Consistent, Executed;
      ghost var live, score0 := ExecutedBlocks(d), score;
      ArrivedIsScored(d, dag, block, voidedBy, score, firstBlock, bestTips);
      AddVoidedBy(block);
      var heads := bestTips;
      var best := BestScore(heads, d);
      assert Prefix(dag, live, heads[0]);
      var total := CalculateScore(block, false, live, heads[0]);
      if total < best {
        Lighter(d, dag, block, voidedBy, score0, score, firstBlock, heads);
      } else {
        Overtake(block, heads, total, best, d, score0);
      }
    }

    /** The block reaches the best score: the chains of the heads are voided down to where its
        own chain forks off, and it wins if it passes that score. */
    method Overtake(block: Hash, heads: seq<Hash>, total: nat, best: nat, ghost d: Dag, ghost score0: map<Hash, nat>)
      requires Sidelined(d, dag, block, voidedBy, score0, firstBlock, heads) && heads == bestTips
      requires best == Score(d, heads[0]) <= Score(dag, block) == total && score == score0[block := total]
      modifies this`voidedBy, this`score, this`firstBlock, this`bestTips
      ensures Valid() && bestTips == NextTips(d, dag, block, heads)
    {
      hide Score, Cone, Chain, Heaviest, Markers, ExecutedBlocks, Live, Scores, Consistent, Executed, Prefix,
           ScoredBehind, ValidVertex;
      AtMostOneValidHead(d, heads);
      ghost var fork := AddVoidedByToMultipleChains(block, heads);
      if total > best {
        Win(block, heads, d, score0, fork);
      } else {
        Tied(d, dag, block, voidedBy, score0, score, firstBlock, heads);
        bestTips := heads;
      }
    }

    method Win(block: Hash, ghost heads: seq<Hash>, ghost d: Dag, ghost score0: map<Hash, nat>, ghost fork: Hash)
      requires Grown(d, dag, block) && Shape() && Tips(d, heads) && heads[0] in d && Score(dag, block) > Score(d, heads[0])
      requires score0.Keys == dag.Keys && (forall x | IsBlock(d, x) :: score0[x] == Score(d, x))
      requires ScoredBehind(dag, score0, block) && score == score0[block := Score(dag, block)]
      requires IsBlock(dag, fork) && fork in Chain(dag, BlockParent(dag, block)) && LiveBlocks() == Chain(dag, fork)
      requires Markers(dag, firstBlock, LiveBlocks())
      modifies this`voidedBy, this`score, this`firstBlock, this`bestTips
      ensures Valid() && bestTips == NextTips(d, dag, block, heads)
    {
      hide Score, Cone, Chain, Heaviest, Markers, ExecutedBlocks, Live, Scores, Consistent, Executed, Prefix,
           ScoredBehind, ValidVertex;
      StillScored(dag, score0, block);
      ForkIsBelow(dag, block, fork);
      MarkAsTheBestChain(block, fork);
      assert score == score0[block := Score(dag, block)];
      if voidedBy[block] == {} {
        bestTips := [block];
      }
      NewHead(d, dag, block, voidedBy, score0, score, firstBlock, heads);
    }
  }

  /** A vertex has just been stored: block `b`, not voided and without a score, on top of a
      graph whose metadata is consistent. */
  ghost predicate Arrived(d: Dag, e: Dag, b: Hash, voidedBy: map<Hash, set<Hash>>, score: map<Hash, nat>,
                          firstBlock: map<Hash, Option<Hash>>, tips: seq<Hash>)
  {
    && Grown(d, e, b) && OnlyOwnHashes(e, voidedBy) && score.Keys == e.Keys && firstBlock.Keys == e.Keys
    && b in Live(e, voidedBy) && Live(e, voidedBy) - {b} == ExecutedBlocks(d)
    && (forall x | IsBlock(d, x) :: score[x] == Score(d, x)) && score[b] == 0
    && Markers(e, firstBlock, ExecutedBlocks(d))
    && Tips(d, tips)
  }

  /** The block has been voided, and nothing else has changed since it arrived. */
  ghost predicate Sidelined(d: Dag, e: Dag, b: Hash, voidedBy: map<Hash, set<Hash>>, score: map<Hash, nat>,
                            firstBlock: map<Hash, Option<Hash>>, tips: seq<Hash>)
  {
    && Grown(d, e, b) && OnlyOwnHashes(e, voidedBy) && score.Keys == e.Keys && firstBlock.Keys == e.Keys
    && Live(e, voidedBy) == ExecutedBlocks(d) && Markers(e, firstBlock, ExecutedBlocks(d))
    && (forall x | IsBlock(d, x) :: score[x] == Score(d, x)) && ScoredBehind(e, score, b)
    && Tips(d, tips) && tips[0] in d
    && forall i | 0 <= i < |tips| :: Prefix(e, ExecutedBlocks(d), tips[i])
  }

  lemma {:induction false} GenesisIsConsistent(d: Dag, work: nat)
    requires d.Keys == {GENESIS} && d[GENESIS].work == work
    ensures Consistent(d, map[GENESIS := {}], map[GENESIS := work], map[GENESIS := None], [GENESIS])
  {
    GenesisScore(d);
    assert Heaviest(d, GENESIS);
    ExecutedIsPrefix(d, GENESIS);
    assert ExecutedBlocks(d) == {GENESIS};
    assert Live(d, map[GENESIS := {}]) == {GENESIS};
  }

  lemma {:induction false} FirstInKept(d: Dag, e: Dag, h: Hash, b: Hash, t: Hash)
    requires Grows(d, e, h) && IsBlock(d, b)
    ensures FirstIn(e, b, t) <==> FirstIn(d, b, t)
  {
    Kept(d, e, h, b);
    ConeInDag(d, b);
    if b != GENESIS { Kept(d, e, h, BlockParent(d, b)); }
  }

  lemma {:induction false} MarkersKept(d: Dag, e: Dag, h: Hash, firstBlock: map<Hash, Option<Hash>>, live: set<Hash>)
    requires Grows(d, e, h) && Markers(d, firstBlock, live) && forall b | b in live :: IsBlock(d, b)
    ensures Markers(e, firstBlock[h := None], live)
  {
    forall t | t in e ensures Marker(e, live, t, firstBlock[h := None][t]) {
      forall b | b in live ensures FirstIn(e, b, t) <==> FirstIn(d, b, t) { FirstInKept(d, e, h, b, t); }
      if t != h { assert Marker(d, live, t, firstBlock[t]); }
    }
  }

  lemma {:induction false} ArrivedBlock(d: Dag, e: Dag, b: Hash, voidedBy: map<Hash, set<Hash>>, score: map<Hash, nat>,
                                        firstBlock: map<Hash, Option<Hash>>, tips: seq<Hash>)
    requires Consistent(d, voidedBy, score, firstBlock, tips) && Grown(d, e, b)
    ensures Arrived(d, e, b, voidedBy[b := {}], score[b := 0], firstBlock[b := None], tips)
  {
    hide Score, Cone, Chain, Heaviest, Executed, Marker, Tips;
    LiveGrown(d, e, b, voidedBy);
    assert b !in ExecutedBlocks(d);
    ExecutedAreBlocks(d);
    MarkersKept(d, e, b, firstBlock, ExecutedBlocks(d));
  }

  lemma {:induction false} ExecutedAreBlocks(d: Dag)
    ensures forall b | b in ExecutedBlocks(d) :: IsBlock(d, b)
  {
    assert forall b :: Executed(d, b) ==> IsBlock(d, b);
  }

  lemma {:induction false} LiveGrown(d: Dag, e: Dag, h: Hash, voidedBy: map<Hash, set<Hash>>)
    requires Grows(d, e, h) && OnlyOwnHashes(d, voidedBy)
    ensures OnlyOwnHashes(e, voidedBy[h := {}])
    ensures Live(e, voidedBy[h := {}]) == Live(d, voidedBy) + if e[h].isBlock then {h} else {}
  {
  }

  lemma {:induction false} ArrivedTransaction(d: Dag, e: Dag, tx: Hash, voidedBy: map<Hash, set<Hash>>, score: map<Hash, nat>,
                                              firstBlock: map<Hash, Option<Hash>>, tips: seq<Hash>)
    requires Consistent(d, voidedBy, score, firstBlock, tips) && Grows(d, e, tx) && IsTx(e, tx)
    ensures Consistent(e, voidedBy[tx := {}], score[tx := 0], firstBlock[tx := None], tips)
  {
    hide Score, Cone, Chain, Heaviest, Executed, Marker, Markers;
    SameVerdicts(d, e, tx);
    LiveGrown(d, e, tx, voidedBy);
    ExecutedAreBlocks(d);
    MarkersKept(d, e, tx, firstBlock, ExecutedBlocks(d));
    forall b | IsBlock(e, b) ensures score[tx := 0][b] == Score(e, b) { Kept(d, e, tx, b); }
  }

  lemma {:induction false} SameVerdicts(d: Dag, e: Dag, tx: Hash)
    requires Grows(d, e, tx) && IsTx(e, tx)
    ensures forall m :: Heaviest(e, m) <==> Heaviest(d, m)
    ensures ExecutedBlocks(e) == ExecutedBlocks(d)
  {
    forall b | IsBlock(e, b) ensures IsBlock(d, b) && Score(e, b) == Score(d, b) && Chain(e, b) == Chain(d, b) {
      Kept(d, e, tx, b);
    }
    forall m ensures Heaviest(e, m) <==> Heaviest(d, m) {
      if Heaviest(e, m) { forall c | IsBlock(d, c) ensures Score(d, c) <= Score(d, m) { assert IsBlock(e, c); } }
    }
    forall b ensures Executed(e, b) <==> Executed(d, b) {
      if Executed(d, b) { forall m | Heaviest(e, m) ensures b in Chain(e, m) { assert Heaviest(d, m); } }
      if Executed(e, b) { forall m | Heaviest(d, m) ensures b in Chain(d, m) { assert Heaviest(e, m); } }
    }
  }

  lemma {:induction false} OnlyChild(d: Dag, e: Dag, b: Hash, children: set<Hash>)
    requires Grown(d, e, b) && |children| == 1
    requires children == set c | c in e && BlockParent(e, b) in e[c].parents
    ensures forall c | IsBlock(d, c) && c != GENESIS :: BlockParent(d, c) != BlockParent(e, b)
  {
    assert b in children && |children - {b}| == 0;
    forall c | IsBlock(d, c) && c != GENESIS ensures BlockParent(d, c) != BlockParent(e, b) {
      assert c !in children - {b} && c != b;
    }
  }

  /** What an arriving block finds behind it: the live blocks are a prefix of every head's
      chain, and every block but itself is scored. */
  lemma {:induction false} ArrivedIsScored(d: Dag, e: Dag, b: Hash, voidedBy: map<Hash, set<Hash>>, score: map<Hash, nat>,
                                           firstBlock: map<Hash, Option<Hash>>, tips: seq<Hash>)
    requires Arrived(d, e, b, voidedBy, score, firstBlock, tips)
    ensures ScoredBehind(e, score, b)
    ensures forall i | 0 <= i < |tips| :: tips[i] in d && Prefix(e, ExecutedBlocks(d), tips[i])
  {
    NewParent(d, e, b);
    var p := BlockParent(e, b);
    Kept(d, e, b, p);
    forall a | a in Chain(e, p) ensures IsBlock(e, a) && score[a] == Score(e, a) {
      ChainInCone(d, p, a);
      Kept(d, e, b, a);
    }
    forall i | 0 <= i < |tips| ensures tips[i] in d && Prefix(e, ExecutedBlocks(d), tips[i]) {
      assert Heaviest(d, tips[i]);
      ExecutedIsPrefix(d, tips[i]);
      PrefixKept(d, e, b, ExecutedBlocks(d), tips[i]);
    }
  }

  lemma {:induction false} PrefixKept(d: Dag, e: Dag, h: Hash, live: set<Hash>, m: Hash)
    requires Grows(d, e, h) && Prefix(d, live, m)
    ensures Prefix(e, live, m)
  {
    Kept(d, e, h, m);
    forall b | b in live ensures IsBlock(e, b) && Chain(e, b) <= live { Kept(d, e, h, b); }
  }

  /** The cached heads cannot be live together: each would be an ancestor of the other. */
  lemma {:induction false} AtMostOneValidHead(d: Dag, heads: seq<Hash>)
    requires Tips(d, heads)
    ensures forall i, j | 0 <= i < j < |heads| :: !(Executed(d, heads[i]) && Executed(d, heads[j]))
  {
    forall i, j | 0 <= i < j < |heads| ensures !(Executed(d, heads[i]) && Executed(d, heads[j])) {
      assert Heaviest(d, heads[i]) && Heaviest(d, heads[j]);
      if Executed(d, heads[i]) && Executed(d, heads[j]) {
        ChainInCone(d, heads[i], heads[j]);
        ChainInCone(d, heads[j], heads[i]);
      }
    }
  }

  lemma {:induction false} ExtendsTheHead(d: Dag, e: Dag, b: Hash, voidedBy: map<Hash, set<Hash>>, score: map<Hash, nat>,
                                          firstBlock: map<Hash, Option<Hash>>, tips: seq<Hash>)
    requires Arrived(d, e, b, voidedBy, score, firstBlock, tips)
    requires voidedBy[BlockParent(e, b)] == {}
    requires forall c | IsBlock(d, c) && c != GENESIS :: BlockParent(d, c) != BlockParent(e, b)
    ensures var p := BlockParent(e, b);
      && tips == [p] && Score(e, b) > Score(d, p) && p in d
      && ExecutedBlocks(d) == Chain(e, p) && p in Chain(e, p)
    ensures ScoredBehind(e, score, b)
  {
    var p := BlockParent(e, b);
    ArrivedIsScored(d, e, b, voidedBy, score, firstBlock, tips);
    NewParent(d, e, b);
    Kept(d, e, b, p);
    assert Heaviest(d, tips[0]);
    assert Executed(d, p) by { assert p in Live(e, voidedBy) - {b}; }
    ShortcutIffExtendsTheHead(d, e, b, tips[0]);
    OneHead(d, tips, p);
    ChainOutweighs(e, b, p);
  }

  /** The block is the new best: exactly its chain is live. */
  lemma {:induction false} NewHead(d: Dag, e: Dag, b: Hash, voidedBy: map<Hash, set<Hash>>, score0: map<Hash, nat>,
                                   score: map<Hash, nat>, firstBlock: map<Hash, Option<Hash>>, tips: seq<Hash>)
    requires Grown(d, e, b) && Tips(d, tips) && tips[0] in d && Score(e, b) > Score(d, tips[0])
    requires OnlyOwnHashes(e, voidedBy) && Live(e, voidedBy) == Chain(e, b) && Markers(e, firstBlock, Chain(e, b))
    requires score0.Keys == e.Keys && (forall x | IsBlock(d, x) :: score0[x] == Score(d, x))
    requires score == score0[b := Score(e, b)]
    ensures Consistent(e, voidedBy, score, firstBlock, [b]) && NextTips(d, e, b, tips) == [b]
  {
    assert Heaviest(d, tips[0]);
    ExecutedBlocksAfter(d, e, b, tips[0]);
    NextTipsAreHeaviest(d, e, b, tips);
    AllScored(d, e, b, score0, score);
  }

  lemma {:induction false} AllScored(d: Dag, e: Dag, b: Hash, score0: map<Hash, nat>, score: map<Hash, nat>)
    requires Grown(d, e, b) && score0.Keys == e.Keys && (forall x | IsBlock(d, x) :: score0[x] == Score(d, x))
    requires score == score0[b := Score(e, b)]
    ensures Scores(e, score)
  {
    forall x | IsBlock(e, x) ensures score[x] == Score(e, x) { if x != b { Kept(d, e, b, x); } }
  }

  /** The block loses: nothing changes but its own voidance and score. */
  lemma {:induction false} Lighter(d: Dag, e: Dag, b: Hash, voidedBy: map<Hash, set<Hash>>, score0: map<Hash, nat>,
                                   score: map<Hash, nat>, firstBlock: map<Hash, Option<Hash>>, tips: seq<Hash>)
    requires Grown(d, e, b) && Tips(d, tips) && tips[0] in d && Score(e, b) < Score(d, tips[0])
    requires OnlyOwnHashes(e, voidedBy) && Live(e, voidedBy) == ExecutedBlocks(d) && Markers(e, firstBlock, ExecutedBlocks(d))
    requires score0.Keys == e.Keys && (forall x | IsBlock(d, x) :: score0[x] == Score(d, x))
    requires score == score0[b := Score(e, b)]
    ensures Consistent(e, voidedBy, score, firstBlock, tips) && NextTips(d, e, b, tips) == tips
  {
    assert Heaviest(d, tips[0]);
    ExecutedBlocksAfter(d, e, b, tips[0]);
    NextTipsAreHeaviest(d, e, b, tips);
    AllScored(d, e, b, score0, score);
  }

  /** The block ties: what is live is what its chain shares with the live chain. */
  lemma {:induction false} Tied(d: Dag, e: Dag, b: Hash, voidedBy: map<Hash, set<Hash>>, score0: map<Hash, nat>,
                                score: map<Hash, nat>, firstBlock: map<Hash, Option<Hash>>, tips: seq<Hash>)
    requires Grown(d, e, b) && Tips(d, tips) && tips[0] in d && Score(e, b) == Score(d, tips[0])
    requires OnlyOwnHashes(e, voidedBy) && Live(e, voidedBy) == ExecutedBlocks(d) * Chain(e, BlockParent(e, b))
    requires Markers(e, firstBlock, Live(e, voidedBy))
    requires score0.Keys == e.Keys && (forall x | IsBlock(d, x) :: score0[x] == Score(d, x))
    requires score == score0[b := Score(e, b)]
    ensures Consistent(e, voidedBy, score, firstBlock, tips) && NextTips(d, e, b, tips) == tips
  {
    assert Heaviest(d, tips[0]);
    ExecutedBlocksAfter(d, e, b, tips[0]);
    assert ExecutedBlocks(d) * Chain(e, b) == ExecutedBlocks(d) * Chain(e, BlockParent(e, b));
    NextTipsAreHeaviest(d, e, b, tips);
    AllScored(d, e, b, score0, score);
  }

  lemma {:induction false} WinnerFork(e: Dag, b: Hash, fork: Hash, live: set<Hash>)
    requires IsBlock(e, b) && b != GENESIS && IsBlock(e, fork) && fork in Chain(e, BlockParent(e, b))
    requires live - {b} == Chain(e, fork) && (b in live ==> fork == BlockParent(e, b))
    ensures Prefix(e, Chain(e, fork), fork) && Chain(e, fork) <= Chain(e, BlockParent(e, b))
    ensures GENESIS in live && (forall x | x in live :: IsBlock(e, x) && Chain(e, x) <= live)
    ensures live + Chain(e, b) == Chain(e, b) && b in Chain(e, b)
  {
    ParentChain(e, b);
    ForkIsBelow(e, b, fork);
    GenesisInChain(e, fork);
    forall x | x in Chain(e, fork) ensures IsBlock(e, x) && Chain(e, x) <= Chain(e, fork) { ChainTransitive(e, fork, x); }
  }

  lemma {:induction false} ForkIsBelow(e: Dag, b: Hash, fork: Hash)
    requires IsBlock(e, b) && b != GENESIS && IsBlock(e, fork) && fork in Chain(e, BlockParent(e, b))
    ensures b !in Chain(e, fork) && Chain(e, fork) <= Chain(e, BlockParent(e, b))
  {
    ParentChain(e, b);
    ChainTransitive(e, BlockParent(e, b), fork);
  }

  lemma {:induction false} StillScored(e: Dag, score0: map<Hash, nat>, b: Hash)
    requires score0.Keys == e.Keys && IsBlock(e, b) && b != GENESIS && ScoredBehind(e, score0, b)
    ensures ScoredBehind(e, score0[b := Score(e, b)], b)
  {
    ParentChain(e, b);
  }

  lemma {:induction false} ParentChain(d: Dag, b: Hash)
    requires IsBlock(d, b) && b != GENESIS
    ensures Chain(d, b) == Chain(d, BlockParent(d, b)) + {b} && b !in Chain(d, BlockParent(d, b))
  {
    if b in Chain(d, BlockParent(d, b)) { ChainInCone(d, BlockParent(d, b), b); }
  }

  lemma {:induction false} MarkersAreUpTo(d: Dag, firstBlock: map<Hash, Option<Hash>>, live: set<Hash>, m: Hash, f: Hash)
    requires Prefix(d, live, m) && Markers(d, firstBlock, live) && f in live
    ensures MarkedUpTo(d, firstBlock, f)
  {
    forall t | t in d && firstBlock[t].Some? ensures IsBlock(d, firstBlock[t].value) {
      assert Marker(d, live, t, firstBlock[t]);
    }
    forall t | IsTx(d, t)
      ensures t in Cone(d, f) <==> firstBlock[t].Some? && d[firstBlock[t].value].timestamp <= d[f].timestamp
    {
      MarkedBehind(d, firstBlock, live, m, f, t);
    }
  }

  lemma {:induction false} NothingElseMarked(d: Dag, firstBlock: map<Hash, Option<Hash>>, f: Hash)
    requires IsBlock(d, f) && Markers(d, firstBlock, Chain(d, f))
    ensures Unmarked(d, firstBlock, f, {})
  {
    forall t | IsTx(d, t) && t !in Cone(d, f) ensures firstBlock[t].None? {
      assert Marker(d, Chain(d, f), t, firstBlock[t]);
      if firstBlock[t].Some? { ChainInCone(d, f, firstBlock[t].value); }
    }
  }

  lemma {:induction false} AddingStart(d: Dag, b: Hash, f: Hash, before: set<Hash>, now: map<Hash, Option<Hash>>, mark: bool)
    requires IsBlock(d, b) && b != GENESIS && MarkedUpTo(d, now, f)
    requires Closed(d, f, before, {}) && before <= TxCone(d, BlockParent(d, b))
    requires mark ==> Unmarked(d, now, f, before)
    ensures Adding(d, b, f, 1, before, before, now, now, d[b].work + Score(d, BlockParent(d, b)), mark)
  {
    assert ValidVertex(d, d[b]);
    ConeStep(d, b, BlockParent(d, b));
    assert before - before - Cone(d, f) == {};
  }

  /** The blocks behind `b` have their scores; `b` has none yet, or the right one. */
  ghost predicate ScoredBehind(d: Dag, score: map<Hash, nat>, b: Hash)
    requires score.Keys == d.Keys && IsBlock(d, b) && b != GENESIS
  {
    && (forall a | a in Chain(d, BlockParent(d, b)) :: IsBlock(d, a) && score[a] == Score(d, a))
    && (score[b] == 0 || score[b] == Score(d, b))
  }

  lemma {:induction false} ScoredBehindParent(d: Dag, score: map<Hash, nat>, b: Hash)
    requires score.Keys == d.Keys && IsBlock(d, b) && b != GENESIS && BlockParent(d, b) != GENESIS
    requires ScoredBehind(d, score, b)
    ensures ScoredBehind(d, score, BlockParent(d, b))
  {
    var p := BlockParent(d, b);
    assert BlockParent(d, p) in Chain(d, p);
    ChainTransitive(d, p, BlockParent(d, p));
  }

  /** State of the loop over the transaction parents of `b`: `before` is what the walks behind
      the block parent used, and the first `i` parents are done. */
  ghost predicate Adding(d: Dag, b: Hash, f: Hash, i: int, before: set<Hash>, used: set<Hash>,
                         marked: map<Hash, Option<Hash>>, now: map<Hash, Option<Hash>>, total: nat, mark: bool)
  {
    && IsBlock(d, b) && b != GENESIS && 1 <= i <= |d[b].parents|
    && Closed(d, f, used, {}) && before <= used <= TxCone(d, b) && used <= d.Keys
    && (forall j | 1 <= j < i :: d[b].parents[j] in used)
    && (forall j | 1 <= j < |d[b].parents| :: IsTx(d, d[b].parents[j]))
    && (forall t | t in used - before :: exists j :: 1 <= j < i && t in Cone(d, d[b].parents[j]))
    && total == d[b].work + Score(d, BlockParent(d, b)) + Work(d, used - before - Cone(d, f))
    && MarkedUpTo(d, now, f) && marked.Keys == d.Keys && (mark ==> Unmarked(d, now, f, used))
    && (forall t | t in d :: now[t] == if mark && t in used - before - Cone(d, f) then Some(b) else marked[t])
  }

  lemma {:induction false} AddingStep(d: Dag, b: Hash, f: Hash, i: int, before: set<Hash>, used: set<Hash>, used': set<Hash>,
                                      marked: map<Hash, Option<Hash>>, now: map<Hash, Option<Hash>>, now': map<Hash, Option<Hash>>,
                                      total: nat, mark: bool)
    requires Adding(d, b, f, i, before, used, marked, now, total, mark) && i < |d[b].parents|
    requires used <= used' <= used + Cone(d, d[b].parents[i]) && d[b].parents[i] in used' && used' <= d.Keys
    requires Closed(d, f, used', {}) && MarkedUpTo(d, now', f) && (mark ==> Unmarked(d, now', f, used'))
    requires forall t | t in d :: now'[t] == if mark && t in used' - used - Cone(d, f) then Some(b) else now[t]
    ensures Adding(d, b, f, i + 1, before, used', marked, now', total + Work(d, used' - used - Cone(d, f)), mark)
  {
    var c, c', fresh' := used - before - Cone(d, f), used' - before - Cone(d, f), used' - used - Cone(d, f);
    assert c' == c + fresh';
    assert Work(d, c') == Work(d, c) + Work(d, fresh') by { WorkDisjoint(d, c, fresh'); }
    assert used' <= TxCone(d, b) by { ConeStep(d, b, d[b].parents[i]); }
    assert forall t | t in used' - before :: exists j :: 1 <= j < i + 1 && t in Cone(d, d[b].parents[j]) by {
      UsedFromParents(d, b, i, before, used, used');
    }
    assert forall t | t in d :: now'[t] == if mark && t in c' then Some(b) else marked[t];
  }

  lemma {:induction false} UsedFromParents(d: Dag, b: Hash, i: int, before: set<Hash>, used: set<Hash>, used': set<Hash>)
    requires b in d && 1 <= i < |d[b].parents| && (forall j | 1 <= j < |d[b].parents| :: d[b].parents[j] in d)
    requires forall t | t in used - before :: exists j :: 1 <= j < i && t in Cone(d, d[b].parents[j])
    requires used' <= used + Cone(d, d[b].parents[i])
    ensures forall t | t in used' - before :: exists j :: 1 <= j < i + 1 && t in Cone(d, d[b].parents[j])
  {
    forall t | t in used' - before ensures exists j :: 1 <= j < i + 1 && t in Cone(d, d[b].parents[j]) {
      if t in used {
        assert t in used - before;
        var j :| 1 <= j < i && t in Cone(d, d[b].parents[j]);
      } else {
        assert t in Cone(d, d[b].parents[i]);
      }
    }
  }

  /** The markers after a block has been scored with marking on. */
  lemma {:induction false} AddedMarks(d: Dag, b: Hash, f: Hash, before: set<Hash>, used: set<Hash>,
                                      marked0: map<Hash, Option<Hash>>, marked: map<Hash, Option<Hash>>, now: map<Hash, Option<Hash>>,
                                      mark: bool)
    requires IsBlock(d, b) && b != GENESIS && IsBlock(d, f) && f in Chain(d, BlockParent(d, b))
    requires marked0.Keys == marked.Keys == now.Keys == d.Keys
    requires TxCone(d, BlockParent(d, b)) - Cone(d, f) <= before
    requires forall t :: t in used - before - Cone(d, f) <==> FirstIn(d, b, t)
    requires forall t | t in d :: now[t] == if mark && t in used - before - Cone(d, f) then Some(b) else marked[t]
    requires mark ==> forall t | t in d :: MarkedAlong(d, f, BlockParent(d, b), t, marked0[t], marked[t])
    ensures mark ==> forall t | t in d :: MarkedAlong(d, f, b, t, marked0[t], now[t])
  {
    var p := BlockParent(d, b);
    ConeStep(d, b, p);
    ChainInCone(d, p, f);
    if mark {
      forall t | t in d ensures MarkedAlong(d, f, b, t, marked0[t], now[t]) {
        assert MarkedAlong(d, f, p, t, marked0[t], marked[t]);
        if FirstIn(d, b, t) { assert t !in Cone(d, f); }
      }
    }
  }

  /** In marking mode, what is neither used nor behind `f` has no marker yet. */
  ghost predicate Unmarked(d: Dag, firstBlock: map<Hash, Option<Hash>>, f: Hash, used: set<Hash>)
    requires IsBlock(d, f) && firstBlock.Keys == d.Keys
  {
    forall t | IsTx(d, t) && t !in used && t !in Cone(d, f) :: firstBlock[t].None?
  }

  ghost predicate Walking(d: Dag, root: Hash, block: Hash, f: Hash,
                          marked: map<Hash, Option<Hash>>, now: map<Hash, Option<Hash>>,
                          used0: set<Hash>, used: set<Hash>, waiting: set<Hash>, sum: nat, mark: bool)
  {
    && IsTx(d, root) && IsBlock(d, block) && MarkedUpTo(d, now, f) && d[f].timestamp < d[block].timestamp
    && waiting <= Cone(d, root) && used0 <= used <= used0 + Cone(d, root) && (root in used || root in waiting)
    && used <= d.Keys && Closed(d, f, used, waiting)
    && sum == Work(d, used - used0 - Cone(d, f))
    && marked.Keys == d.Keys
    && (forall t | t in d :: now[t] == if mark && t in used - used0 - Cone(d, f) then Some(block) else marked[t])
    && (mark ==> Unmarked(d, now, f, used))
  }

  lemma {:induction false} WalkingStep(d: Dag, root: Hash, block: Hash, f: Hash,
                    marked: map<Hash, Option<Hash>>, now: map<Hash, Option<Hash>>,
                    used0: set<Hash>, used: set<Hash>, waiting: set<Hash>, sum: nat, mark: bool, tx: Hash)
    requires Walking(d, root, block, f, marked, now, used0, used, waiting, sum, mark) && tx in waiting
    ensures IsTx(d, tx) && (now[tx].Some? ==> now[tx].value in d)
    ensures tx in used ==>
      Walking(d, root, block, f, marked, now, used0, used, waiting - {tx}, sum, mark)
    ensures tx !in used && now[tx].Some? && d[now[tx].value].timestamp <= d[f].timestamp ==>
      Walking(d, root, block, f, marked, now, used0, used + {tx}, waiting - {tx}, sum, mark)
    ensures tx !in used && !(now[tx].Some? && d[now[tx].value].timestamp <= d[f].timestamp) ==>
      Walking(d, root, block, f, marked, if mark then now[tx := Some(block)] else now, used0,
              used + {tx}, waiting - {tx} + Parents(d, tx), sum + d[tx].work, mark)
  {
    TxConeHoldsTxs(d, root, tx);
    if tx !in used {
      if tx in Cone(d, f) {
        assert used + {tx} - used0 - Cone(d, f) == used - used0 - Cone(d, f);
      } else {
        WalkingCounts(d, root, block, f, marked, now, used0, used, waiting, sum, mark, tx);
      }
    }
  }

  lemma {:induction false} WalkingCounts(d: Dag, root: Hash, block: Hash, f: Hash,
                      marked: map<Hash, Option<Hash>>, now: map<Hash, Option<Hash>>,
                      used0: set<Hash>, used: set<Hash>, waiting: set<Hash>, sum: nat, mark: bool, tx: Hash)
    requires Walking(d, root, block, f, marked, now, used0, used, waiting, sum, mark)
    requires tx in waiting && IsTx(d, tx) && tx !in used && tx !in Cone(d, f)
    ensures
      Walking(d, root, block, f, marked, if mark then now[tx := Some(block)] else now, used0,
              used + {tx}, waiting - {tx} + Parents(d, tx), sum + d[tx].work, mark)
  {
    var counted, counted' := used - used0 - Cone(d, f), used + {tx} - used0 - Cone(d, f);
    assert counted' == counted + {tx} by { assert tx !in used0; }
    WorkAdd(d, counted, tx);
    var waiting' := waiting - {tx} + Parents(d, tx);
    assert waiting' <= Cone(d, root) by {
      ConeTransitive(d, root, tx);
      forall q | q in Parents(d, tx) ensures q in Cone(d, root) { ConeStep(d, tx, q); }
    }
    assert Closed(d, f, used + {tx}, waiting') by { ClosedStep(d, f, used, waiting, tx); }
    var now' := if mark then now[tx := Some(block)] else now;
    assert MarkedUpTo(d, now', f) by { if mark { MarkedUpToStep(d, now, f, block, tx); } }
    assert forall t | t in d :: now'[t] == if mark && t in counted' then Some(block) else marked[t];
    assert mark ==> Unmarked(d, now', f, used + {tx});
  }

  lemma {:induction false} ClosedStep(d: Dag, f: Hash, used: set<Hash>, waiting: set<Hash>, tx: Hash)
    requires Closed(d, f, used, waiting) && IsTx(d, tx)
    ensures Closed(d, f, used + {tx}, waiting - {tx} + Parents(d, tx))
  {
  }

  lemma {:induction false} MarkedUpToStep(d: Dag, now: map<Hash, Option<Hash>>, f: Hash, block: Hash, tx: Hash)
    requires MarkedUpTo(d, now, f) && IsTx(d, tx) && tx !in Cone(d, f)
    requires IsBlock(d, block) && d[f].timestamp < d[block].timestamp
    ensures MarkedUpTo(d, now[tx := Some(block)], f)
  {
  }

  lemma {:induction false} LiveWithout(d: Dag, voidedBy: map<Hash, set<Hash>>, b: Hash)
    requires OnlyOwnHashes(d, voidedBy) && IsBlock(d, b)
    ensures OnlyOwnHashes(d, voidedBy[b := {b}])
    ensures Live(d, voidedBy[b := {b}]) == Live(d, voidedBy) - {b}
  {
  }

  lemma {:induction false} IsLive(d: Dag, voidedBy: map<Hash, set<Hash>>, b: Hash)
    requires OnlyOwnHashes(d, voidedBy) && IsBlock(d, b)
    ensures b in Live(d, voidedBy) <==> b !in voidedBy[b]
  {
  }

  lemma {:induction false} LiveWith(d: Dag, voidedBy: map<Hash, set<Hash>>, b: Hash)
    requires OnlyOwnHashes(d, voidedBy) && IsBlock(d, b)
    ensures OnlyOwnHashes(d, voidedBy[b := {}])
    ensures Live(d, voidedBy[b := {}]) == Live(d, voidedBy) + {b}
  {
  }

  /** The blocks of the chain of `block` above `b` have been taken out of voidance. */
  ghost predicate Unvoiding(d: Dag, voidedBy: map<Hash, set<Hash>>, live: set<Hash>, block: Hash, b: Hash) {
    && IsBlock(d, block) && IsBlock(d, b) && voidedBy.Keys == d.Keys && OnlyOwnHashes(d, voidedBy)
    && Chain(d, b) <= Chain(d, block)
    && Live(d, voidedBy) == live + (Chain(d, block) - Chain(d, b))
  }

  lemma {:induction false} UnvoidingStep(d: Dag, voidedBy: map<Hash, set<Hash>>, live: set<Hash>, block: Hash, b: Hash)
    requires Unvoiding(d, voidedBy, live, block, b) && b in voidedBy[b] && GENESIS in live
    ensures b != GENESIS && Unvoiding(d, voidedBy[b := voidedBy[b] - {b}], live, block, BlockParent(d, b))
  {
    IsLive(d, voidedBy, b);
    assert voidedBy[b] - {b} == {};
    LiveWith(d, voidedBy, b);
    ParentChain(d, b);
  }

  lemma {:induction false} UnvoidingDone(d: Dag, voidedBy: map<Hash, set<Hash>>, live: set<Hash>, block: Hash, b: Hash)
    requires Unvoiding(d, voidedBy, live, block, b) && b !in voidedBy[b]
    requires forall x | x in live :: IsBlock(d, x) && Chain(d, x) <= live
    ensures Live(d, voidedBy) == live + Chain(d, block)
  {
    IsLive(d, voidedBy, b);
    assert b in Chain(d, b);
  }

  lemma {:induction false} PrefixWithoutTip(d: Dag, live: set<Hash>, head: Hash)
    requires Prefix(d, live, head) && head in live && head != GENESIS
    ensures Prefix(d, live - {head}, BlockParent(d, head))
  {
    forall b | b in live - {head} ensures Chain(d, b) <= live - {head} {
      if head in Chain(d, b) {
        ChainInCone(d, b, head);
        ChainInCone(d, head, b);
      }
    }
  }

  lemma {:induction false} PrefixBelow(d: Dag, live: set<Hash>, head: Hash)
    requires Prefix(d, live, head) && head !in live
    ensures head != GENESIS && Prefix(d, live, BlockParent(d, head))
  {
  }

  lemma {:induction false} ForkIsPrefix(d: Dag, live: set<Hash>, m: Hash, f: Hash)
    requires Prefix(d, live, m) && f in live
    ensures Prefix(d, Chain(d, f), m)
  {
    GenesisInChain(d, f);
    forall b | b in Chain(d, f) ensures IsBlock(d, b) && Chain(d, b) <= Chain(d, f) { ChainTransitive(d, f, b); }
  }

  /** The newest live ancestor on a chain has as its own chain what the two chains share. */
  lemma {:induction false} ForkIsMeet(d: Dag, live: set<Hash>, m: Hash, p: Hash, f: Hash)
    requires Prefix(d, live, m) && IsBlock(d, p) && f in live && f in Chain(d, p)
    requires forall a | a in live && a in Chain(d, p) :: a in Chain(d, f)
    ensures Chain(d, f) == live * Chain(d, p)
  {
    ChainTransitive(d, p, f);
  }
}
