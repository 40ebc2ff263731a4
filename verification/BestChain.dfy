/** What the consensus metadata of blocks must be, as a function of the graph alone,
    and how it moves when one block is added. */
module BestChain {
  import opened Collections
  import opened Dag

  ghost predicate Heaviest(d: Dag, m: Hash) {
    IsBlock(d, m) && forall c | IsBlock(d, c) :: Score(d, c) <= Score(d, m)
  }

  /** A block is executed when every block of maximum score descends from it (or is it). */
  ghost predicate Executed(d: Dag, b: Hash) {
    IsBlock(d, b) && forall m | Heaviest(d, m) :: b in Chain(d, m)
  }

  ghost function ExecutedBlocks(d: Dag): set<Hash> {
    set b | b in d && Executed(d, b)
  }

  /** `b` is the block of its chain that brings transaction `t` into the past cone. */
  ghost predicate FirstIn(d: Dag, b: Hash, t: Hash) {
    && IsBlock(d, b) && IsTx(d, t) && t in Cone(d, b)
    && (b != GENESIS ==> t !in Cone(d, BlockParent(d, b)))
  }

  // ---- the metadata fields

  /** The blocks whose `voided_by` is empty. */
  ghost function Live(d: Dag, voidedBy: map<Hash, set<Hash>>): set<Hash>
    requires voidedBy.Keys == d.Keys
  {
    set b | b in d && d[b].isBlock && voidedBy[b] == {}
  }

  /** No transaction is voided, and only its own hash voids a block. */
  ghost predicate OnlyOwnHashes(d: Dag, voidedBy: map<Hash, set<Hash>>) {
    && voidedBy.Keys == d.Keys
    && forall h | h in d :: voidedBy[h] == {} || (d[h].isBlock && voidedBy[h] == {h})
  }

  ghost predicate Marker(d: Dag, live: set<Hash>, t: Hash, m: Option<Hash>) {
    match m
    case Some(b) => b in live && FirstIn(d, b, t)
    case None => forall b | b in live :: !FirstIn(d, b, t)
  }

  ghost predicate Markers(d: Dag, firstBlock: map<Hash, Option<Hash>>, live: set<Hash>) {
    firstBlock.Keys == d.Keys && forall t | t in d :: Marker(d, live, t, firstBlock[t])
  }

  ghost predicate Scores(d: Dag, score: map<Hash, nat>) {
    score.Keys == d.Keys && forall b | IsBlock(d, b) :: score[b] == Score(d, b)
  }

  ghost predicate Tips(d: Dag, tips: seq<Hash>) {
    && tips != [] && (forall t | t in tips :: Heaviest(d, t))
    && forall i, j | 0 <= i < j < |tips| :: tips[i] != tips[j]
  }

  ghost predicate Consistent(d: Dag, voidedBy: map<Hash, set<Hash>>, score: map<Hash, nat>,
                             firstBlock: map<Hash, Option<Hash>>, tips: seq<Hash>)
  {
    && OnlyOwnHashes(d, voidedBy)
    && Live(d, voidedBy) == ExecutedBlocks(d)
    && Scores(d, score)
    && Markers(d, firstBlock, ExecutedBlocks(d))
    && Tips(d, tips)
  }

  // ---- chains of live blocks

  /** A set of blocks that lies on the chain of `m` and is closed under the block parent. */
  ghost predicate Prefix(d: Dag, live: set<Hash>, m: Hash) {
    && IsBlock(d, m) && live <= Chain(d, m) && GENESIS in live
    && forall b | b in live :: IsBlock(d, b) && Chain(d, b) <= live
  }

  lemma {:induction false} ExecutedIsPrefix(d: Dag, m: Hash)
    requires Heaviest(d, m)
    ensures Prefix(d, ExecutedBlocks(d), m)
  {
    var live := ExecutedBlocks(d);
    forall b | b in live ensures b in Chain(d, m) { assert Executed(d, b); }
    assert GENESIS in live by {
      forall h | Heaviest(d, h) ensures GENESIS in Chain(d, h) { GenesisInChain(d, h); }
    }
    forall b | b in live ensures IsBlock(d, b) && Chain(d, b) <= live {
      forall a | a in Chain(d, b) ensures a in live { ExecutedIsClosed(d, b, a); }
    }
  }

  lemma {:induction false} ExecutedIsClosed(d: Dag, b: Hash, a: Hash)
    requires Executed(d, b) && a in Chain(d, b)
    ensures Executed(d, a)
  {
    ChainInCone(d, b, a);
    forall h | Heaviest(d, h) ensures a in Chain(d, h) { ChainTransitive(d, h, b); }
  }

  lemma {:induction false} PrefixIsOrdered(d: Dag, live: set<Hash>, m: Hash, x: Hash, y: Hash)
    requires Prefix(d, live, m) && x in live && y in live
    ensures IsBlock(d, x) && IsBlock(d, y)
    ensures x in Chain(d, y) || y in Chain(d, x)
    ensures d[x].timestamp <= d[y].timestamp ==> x in Chain(d, y)
  {
    if d[x].timestamp <= d[y].timestamp { ChainIsOrdered(d, m, x, y); } else { ChainIsOrdered(d, m, y, x); }
  }

  /** The executed blocks are one parent-closed chain that starts at genesis. */
  lemma {:induction false} ExecutedFormOneChain(d: Dag, m: Hash, x: Hash, y: Hash)
    requires Heaviest(d, m) && Executed(d, x) && Executed(d, y)
    ensures Executed(d, GENESIS)
    ensures x != GENESIS ==> Executed(d, BlockParent(d, x))
    ensures x in Chain(d, y) || y in Chain(d, x)
  {
    ExecutedIsPrefix(d, m);
    PrefixIsOrdered(d, ExecutedBlocks(d), m, x, y);
    assert Chain(d, x) <= ExecutedBlocks(d);
    if x != GENESIS { assert BlockParent(d, x) in Chain(d, x); }
  }

  // ---- markers

  lemma {:induction false} FirstExists(d: Dag, b: Hash, t: Hash) returns (c: Hash)
    requires IsBlock(d, b) && IsTx(d, t) && t in Cone(d, b)
    ensures c in Chain(d, b) && FirstIn(d, c, t)
    decreases d[b].timestamp
  {
    c := b;
    if b != GENESIS && t in Cone(d, BlockParent(d, b)) {
      c := FirstExists(d, BlockParent(d, b), t);
    }
  }

  lemma {:induction false} FirstIsUnique(d: Dag, b: Hash, c: Hash, t: Hash)
    requires IsBlock(d, c) && b in Chain(d, c) && FirstIn(d, b, t) && FirstIn(d, c, t)
    ensures b == c
  {
    if b != c {
      assert b in Chain(d, BlockParent(d, c));
      ChainInCone(d, BlockParent(d, c), b);
      assert false;
    }
  }

  /** A transaction lies behind a live block `f` exactly when its marker is `f` or older. */
  lemma {:induction false} MarkedBehind(d: Dag, firstBlock: map<Hash, Option<Hash>>, live: set<Hash>, m: Hash, f: Hash, t: Hash)
    requires Prefix(d, live, m) && Markers(d, firstBlock, live) && f in live && IsTx(d, t)
    ensures IsBlock(d, f) && (firstBlock[t].Some? ==> IsBlock(d, firstBlock[t].value))
    ensures t in Cone(d, f) <==> firstBlock[t].Some? && d[firstBlock[t].value].timestamp <= d[f].timestamp
  {
    assert Marker(d, live, t, firstBlock[t]);
    if t in Cone(d, f) {
      var c := FirstExists(d, f, t);
      ChainInCone(d, f, c);
      assert c in live;
      var b := firstBlock[t].value;
      PrefixIsOrdered(d, live, m, b, c);
      if b in Chain(d, c) { FirstIsUnique(d, b, c, t); } else { FirstIsUnique(d, c, b, t); }
    } else if firstBlock[t].Some? && d[firstBlock[t].value].timestamp <= d[f].timestamp {
      var b := firstBlock[t].value;
      PrefixIsOrdered(d, live, m, b, f);
      ChainInCone(d, f, b);
      assert false;
    }
  }

  /** The marker of a transaction is the oldest executed block whose cone holds it;
      there is no marker exactly when no executed block's cone holds it. */
  lemma {:induction false} MarkerIsOldest(d: Dag, firstBlock: map<Hash, Option<Hash>>, m: Hash, t: Hash)
    requires Heaviest(d, m) && Markers(d, firstBlock, ExecutedBlocks(d)) && IsTx(d, t)
    ensures firstBlock[t].None? <==> forall c | Executed(d, c) :: t !in Cone(d, c)
    ensures firstBlock[t].Some? ==>
      var b := firstBlock[t].value;
      Executed(d, b) && t in Cone(d, b)
      && forall c | Executed(d, c) && t in Cone(d, c) :: d[b].timestamp <= d[c].timestamp && b in Chain(d, c)
  {
    ExecutedIsPrefix(d, m);
    var live := ExecutedBlocks(d);
    assert Marker(d, live, t, firstBlock[t]);
    forall c | Executed(d, c) && t in Cone(d, c)
      ensures firstBlock[t].Some? && d[firstBlock[t].value].timestamp <= d[c].timestamp
      ensures firstBlock[t].value in Chain(d, c)
    {
      MarkedBehind(d, firstBlock, live, m, c, t);
      PrefixIsOrdered(d, live, m, firstBlock[t].value, c);
    }
  }

  /** Which marker a transaction has is decided by the live chain alone. */
  lemma {:induction false} MarkersAreUnique(d: Dag, live: set<Hash>, m: Hash, t: Hash, m1: Option<Hash>, m2: Option<Hash>)
    requires Prefix(d, live, m) && Marker(d, live, t, m1) && Marker(d, live, t, m2)
    ensures m1 == m2
  {
    if m1.Some? && m2.Some? {
      PrefixIsOrdered(d, live, m, m1.value, m2.value);
      if m1.value in Chain(d, m2.value) {
        FirstIsUnique(d, m1.value, m2.value, t);
      } else {
        FirstIsUnique(d, m2.value, m1.value, t);
      }
    }
  }

  /** Convergence: two nodes that hold the same graph, whatever the order in which its
      vertices reached them, agree on every block's voidance and score and on every
      transaction's first block. */
  lemma {:induction false} Convergence(d: Dag,
                    v1: map<Hash, set<Hash>>, s1: map<Hash, nat>, f1: map<Hash, Option<Hash>>, t1: seq<Hash>,
                    v2: map<Hash, set<Hash>>, s2: map<Hash, nat>, f2: map<Hash, Option<Hash>>, t2: seq<Hash>)
    requires Consistent(d, v1, s1, f1, t1) && Consistent(d, v2, s2, f2, t2)
    ensures v1 == v2 && f1 == f2
    ensures forall b | IsBlock(d, b) :: s1[b] == s2[b]
  {
    assert Heaviest(d, t1[0]);
    SameMarkers(d, t1[0], f1, f2);
    forall h | h in d ensures v1[h] == v2[h] { SameVoidance(d, v1, v2, h); }
  }

  lemma {:induction false} SameMarkers(d: Dag, m: Hash, f1: map<Hash, Option<Hash>>, f2: map<Hash, Option<Hash>>)
    requires Heaviest(d, m) && Markers(d, f1, ExecutedBlocks(d)) && Markers(d, f2, ExecutedBlocks(d))
    ensures f1 == f2
  {
    var live := ExecutedBlocks(d);
    ExecutedIsPrefix(d, m);
    forall h | h in d ensures f1[h] == f2[h] {
      assert Marker(d, live, h, f1[h]) && Marker(d, live, h, f2[h]);
      MarkersAreUnique(d, live, m, h, f1[h], f2[h]);
    }
  }

  lemma {:induction false} SameVoidance(d: Dag, v1: map<Hash, set<Hash>>, v2: map<Hash, set<Hash>>, h: Hash)
    requires OnlyOwnHashes(d, v1) && OnlyOwnHashes(d, v2) && Live(d, v1) == Live(d, v2) && h in d
    ensures v1[h] == v2[h]
  {
    assert h in Live(d, v1) <==> h in Live(d, v2);
  }

  // ---- one block more

  /** `e` is `d` with the new vertex `h`. */
  ghost predicate Grows(d: Dag, e: Dag, h: Hash) {
    h !in d && h != GENESIS && e.Keys == d.Keys + {h} && forall x | x in d :: e[x] == d[x]
  }

  /** `e` is `d` with the new block `b`. */
  ghost predicate Grown(d: Dag, e: Dag, b: Hash) {
    Grows(d, e, b) && IsBlock(e, b)
  }

  lemma {:induction false} Kept(d: Dag, e: Dag, b: Hash, x: Hash)
    requires Grows(d, e, b) && x in d
    ensures Score(e, x) == Score(d, x) && Cone(e, x) == Cone(d, x) && b !in Cone(d, x)
    ensures IsBlock(d, x) ==> Chain(e, x) == Chain(d, x) && b !in Chain(d, x)
  {
    ScoreKept(d, e, x);
    ConeKept(d, e, x);
    ConeInDag(d, x);
    if IsBlock(d, x) {
      ChainKept(d, e, x);
      if b in Chain(d, x) { ChainInCone(d, x, b); }
    }
  }

  lemma {:induction false} NewParent(d: Dag, e: Dag, b: Hash)
    requires Grown(d, e, b)
    ensures IsBlock(d, BlockParent(e, b)) && Chain(e, b) == Chain(d, BlockParent(e, b)) + {b}
  {
    Kept(d, e, b, BlockParent(e, b));
  }

  /** Which blocks are the heaviest once `b` is there, in terms of those before it. */
  lemma {:induction false} HeaviestAfter(d: Dag, e: Dag, b: Hash, m: Hash, h: Hash)
    requires Grown(d, e, b) && Heaviest(d, m) && h in e
    ensures Heaviest(e, h) <==>
      if h == b then Score(e, b) >= Score(d, m) else Heaviest(d, h) && Score(e, b) <= Score(d, m)
  {
    Kept(d, e, b, m);
    if h != b { Kept(d, e, b, h); }
    forall c | IsBlock(e, c) && c != b ensures IsBlock(d, c) && Score(e, c) == Score(d, c) { Kept(d, e, b, c); }
    if h != b && Heaviest(e, h) {
      assert IsBlock(e, m) && IsBlock(e, b);
      forall c | IsBlock(d, c) ensures Score(d, c) <= Score(d, h) { assert IsBlock(e, c); }
    }
  }

  lemma {:induction false} ExecutedAfter(d: Dag, e: Dag, b: Hash, m: Hash, x: Hash)
    requires Grown(d, e, b) && Heaviest(d, m) && IsBlock(e, x)
    ensures Executed(e, x) <==>
      && (Score(e, b) <= Score(d, m) ==> x != b && Executed(d, x))
      && (Score(e, b) >= Score(d, m) ==> x in Chain(e, b))
  {
    if Executed(e, x) {
      HeaviestAfter(d, e, b, m, b);
      if Score(e, b) <= Score(d, m) {
        forall h | Heaviest(d, h) ensures x in Chain(d, h) {
          HeaviestAfter(d, e, b, m, h);
          Kept(d, e, b, h);
        }
        Kept(d, e, b, m);
      }
    } else {
      var h :| Heaviest(e, h) && x !in Chain(e, h);
      HeaviestAfter(d, e, b, m, h);
      if h != b { Kept(d, e, b, h); }
    }
  }

  /** A block lighter than the best changes no verdict; one as heavy as the best leaves
      executed only what is also behind it; a heavier one has exactly its chain executed. */
  lemma {:induction false} ExecutedBlocksAfter(d: Dag, e: Dag, b: Hash, m: Hash)
    requires Grown(d, e, b) && Heaviest(d, m)
    ensures ExecutedBlocks(e) ==
      if Score(e, b) < Score(d, m) then ExecutedBlocks(d)
      else if Score(e, b) == Score(d, m) then ExecutedBlocks(d) * Chain(e, b)
      else Chain(e, b)
  {
    forall x | IsBlock(e, x)
      ensures Executed(e, x) <==>
        && (Score(e, b) <= Score(d, m) ==> x != b && Executed(d, x))
        && (Score(e, b) >= Score(d, m) ==> x in Chain(e, b))
    {
      ExecutedAfter(d, e, b, m, x);
    }
    forall a | a in Chain(e, b) ensures IsBlock(e, a) { ChainInCone(e, b, a); }
  }

  /** The shortcut of the arrival procedure (the parent is not voided and the new block is
      its only child) is taken exactly when the parent was the one block of maximum score. */
  lemma {:induction false} ShortcutIffExtendsTheHead(d: Dag, e: Dag, b: Hash, m: Hash)
    requires Grown(d, e, b) && Heaviest(d, m)
    ensures var p := BlockParent(e, b);
      (Executed(d, p) && (forall c | IsBlock(d, c) && c != GENESIS :: BlockParent(d, c) != p))
      <==> forall h | h in d :: Heaviest(d, h) <==> h == p
  {
    NewParent(d, e, b);
    var p := BlockParent(e, b);
    if Executed(d, p) && forall c | IsBlock(d, c) && c != GENESIS :: BlockParent(d, c) != p {
      forall h | Heaviest(d, h) ensures h == p { LeafOnChain(d, h, p); }
    } else if forall h | h in d :: Heaviest(d, h) <==> h == p {
      assert Executed(d, p);
      var c :| IsBlock(d, c) && c != GENESIS && BlockParent(d, c) == p;
      ChainOutweighs(d, c, p);
      assert false;
    }
  }

  lemma {:induction false} LeafOnChain(d: Dag, h: Hash, p: Hash)
    requires IsBlock(d, h) && p in Chain(d, h)
    requires forall c | IsBlock(d, c) && c != GENESIS :: BlockParent(d, c) != p
    ensures h == p
    decreases d[h].timestamp
  {
    if h != p { LeafOnChain(d, BlockParent(d, h), p); }
  }

  // ---- the cached tips

  /** What an arrival leaves in the cache of best block tips. */
  ghost function NextTips(d: Dag, e: Dag, b: Hash, tips: seq<Hash>): seq<Hash>
    requires Grown(d, e, b) && tips != [] && tips[0] in d
  {
    if Score(e, b) > Score(d, tips[0]) then [b] else tips
  }

  ghost predicate AllHeads(d: Dag, tips: seq<Hash>) {
    forall h :: h in tips <==> Heaviest(d, h)
  }

  /** The cache lists every head of a best chain after an arrival exactly if the new block wins,
      or if it is lighter and the cache did so before: on a tie the new head is left out, and it
      stays out until a block wins. */
  lemma {:induction false} TipsAreAllHeadsIff(d: Dag, e: Dag, b: Hash, tips: seq<Hash>)
    requires Grown(d, e, b) && Tips(d, tips) && tips[0] in d
    ensures Tips(e, NextTips(d, e, b, tips))
    ensures AllHeads(e, NextTips(d, e, b, tips)) <==>
              Score(e, b) > Score(d, tips[0]) || (AllHeads(d, tips) && Score(e, b) < Score(d, tips[0]))
  {
    NextTipsAreHeaviest(d, e, b, tips);
    var m := tips[0];
    assert Heaviest(d, m);
    forall h | h in e
      ensures Heaviest(e, h) <==>
        if h == b then Score(e, b) >= Score(d, m) else Heaviest(d, h) && Score(e, b) <= Score(d, m)
    {
      HeaviestAfter(d, e, b, m, h);
    }
    if Score(e, b) == Score(d, m) { assert Heaviest(e, b) && b !in tips; }
  }

  lemma {:induction false} SameHeads(d: Dag, e: Dag, tx: Hash, h: Hash)
    requires Grows(d, e, tx) && IsTx(e, tx)
    ensures Heaviest(e, h) <==> Heaviest(d, h)
  {
    hide Score;
    forall c | c in d ensures Score(e, c) == Score(d, c) { ScoreKept(d, e, c); }
    assert forall c :: IsBlock(e, c) <==> IsBlock(d, c);
    if IsBlock(d, h) && Heaviest(e, h) {
      forall c | IsBlock(d, c) ensures Score(d, c) <= Score(d, h) { assert IsBlock(e, c); }
    }
  }

  /** The arrival of one vertex: the graph and the cache before and after it. */
  datatype Arrival = Arrival(before: Dag, vertex: Hash, after: Dag, tips: seq<Hash>, next: seq<Hash>)

  ghost predicate IsArrival(a: Arrival) {
    && Grows(a.before, a.after, a.vertex) && a.vertex in a.after && a.tips != [] && a.tips[0] in a.before
    && a.next == if IsBlock(a.after, a.vertex) then NextTips(a.before, a.after, a.vertex, a.tips) else a.tips
  }

  /** A run of arrivals that starts with the genesis block alone. */
  ghost predicate CacheRun(run: seq<Arrival>) {
    && (forall a | a in run :: IsArrival(a))
    && (run != [] ==> run[0].before.Keys == {GENESIS} && run[0].tips == [GENESIS])
    && forall i | 0 < i < |run| :: run[i].before == run[i - 1].after && run[i].tips == run[i - 1].next
  }

  ghost predicate Ties(a: Arrival) {
    IsArrival(a) && IsBlock(a.after, a.vertex) && Score(a.after, a.vertex) == Score(a.before, a.tips[0])
  }

  ghost predicate Wins(a: Arrival) {
    IsArrival(a) && IsBlock(a.after, a.vertex) && Score(a.after, a.vertex) > Score(a.before, a.tips[0])
  }

  /** A block tied and none has won since. */
  ghost predicate TieStands(run: seq<Arrival>) {
    exists i :: 0 <= i < |run| && Ties(run[i]) && forall j | i < j < |run| :: !Wins(run[j])
  }

  lemma {:induction false} TieStandsStep(run: seq<Arrival>, a: Arrival)
    ensures TieStands(run + [a]) <==> Ties(a) || (TieStands(run) && !Wins(a))
  {
    hide Ties, Wins;
    var all := run + [a];
    if Ties(a) {
      assert Ties(all[|run|]);
    } else if TieStands(run) && !Wins(a) {
      var i :| 0 <= i < |run| && Ties(run[i]) && forall j | i < j < |run| :: !Wins(run[j]);
      assert Ties(all[i]) && forall j | i < j < |all| :: !Wins(all[j]);
    }
    if TieStands(all) && !Ties(a) {
      var i :| 0 <= i < |all| && Ties(all[i]) && forall j | i < j < |all| :: !Wins(all[j]);
      assert !Wins(all[|run|]) && Ties(run[i]);
      forall j | i < j < |run| ensures !Wins(run[j]) { assert run[j] == all[j]; }
    }
  }

  lemma {:induction false} StepKeepsTips(a: Arrival)
    requires IsArrival(a) && Tips(a.before, a.tips)
    ensures Tips(a.after, a.next)
    ensures AllHeads(a.after, a.next) <==> !Ties(a) && (Wins(a) || AllHeads(a.before, a.tips))
  {
    hide Score, Heaviest;
    if IsBlock(a.after, a.vertex) {
      TipsAreAllHeadsIff(a.before, a.after, a.vertex, a.tips);
    } else {
      forall h ensures Heaviest(a.after, h) <==> Heaviest(a.before, h) { SameHeads(a.before, a.after, a.vertex, h); }
    }
  }

  /** After every run the cached tips are heaviest blocks, and they are all of them exactly unless
      a tie stands. */
  lemma {:induction false} CacheIsCompleteUnlessTieStands(run: seq<Arrival>)
    requires CacheRun(run) && run != []
    ensures var last := run[|run| - 1];
            Tips(last.after, last.next) && (AllHeads(last.after, last.next) <==> !TieStands(run))
    decreases |run|
  {
    hide Tips, AllHeads, IsArrival, Ties, Wins, TieStands;
    var front, last := run[..|run| - 1], run[|run| - 1];
    assert run == front + [last] && last in run;
    TieStandsStep(front, last);
    if front == [] {
      OnlyGenesis(last.before);
      NoTieYet();
    } else {
      assert forall a | a in front :: a in run;
      assert run[|run| - 2] == front[|front| - 1];
      CacheIsCompleteUnlessTieStands(front);
    }
    StepKeepsTips(last);
    NotBoth(last);
  }

  lemma {:induction false} NoTieYet()
    ensures !TieStands([])
  {
  }

  lemma {:induction false} NotBoth(a: Arrival)
    ensures !(Ties(a) && Wins(a))
  {
  }

  lemma {:induction false} OnlyGenesis(d: Dag)
    requires d.Keys == {GENESIS}
    ensures Tips(d, [GENESIS]) && AllHeads(d, [GENESIS])
  {
    assert forall c | IsBlock(d, c) :: c == GENESIS;
  }

  lemma {:induction false} ScoreOnGenesis(d: Dag, b: Hash)
    requires b in d && b != GENESIS && d[b].parents == [GENESIS]
    ensures Score(d, b) == d[b].work + d[GENESIS].work && Score(d, GENESIS) == d[GENESIS].work
  {
    GenesisScore(d);
    assert Cone(d, b) == {GENESIS} + {b};
    WorkAdd(d, {GENESIS}, b);
  }

  /** The cache does miss a head. Blocks `1` and `2` of equal work extend genesis: `2` is as heavy
      as `1` and is not cached; a lighter block `3` does not change that. */
  lemma {:induction false} TieHidesAHead(d0: Dag, d1: Dag, d2: Dag, d3: Dag)
    requires d0 == map[GENESIS := Vertex(true, 1, 0, [])]
    requires d1 == d0[1 := Vertex(true, 2, 1, [GENESIS])] && d2 == d1[2 := Vertex(true, 2, 2, [GENESIS])]
    requires d3 == d2[3 := Vertex(true, 1, 3, [GENESIS])]
    ensures var tie, lighter := Arrival(d1, 2, d2, [1], [1]), Arrival(d2, 3, d3, [1], [1]);
            && CacheRun([Arrival(d0, 1, d1, [GENESIS], [1]), tie, lighter])
            && Ties(tie) && !AllHeads(d2, [1]) && !Ties(lighter) && !AllHeads(d3, [1])
  {
    hide Score, AllHeads, Tips, Ties, Wins, IsArrival, TieStands;
    var first, tie, lighter := Arrival(d0, 1, d1, [GENESIS], [1]), Arrival(d1, 2, d2, [1], [1]), Arrival(d2, 3, d3, [1], [1]);
    GenesisScore(d0);
    ScoreOnGenesis(d1, 1);
    ScoreOnGenesis(d2, 2);
    ScoreOnGenesis(d2, 1);
    ScoreOnGenesis(d3, 3);
    Compared(first);
    Compared(tie);
    Compared(lighter);
    TieStandsStep([first], tie);
    TieStandsStep([first, tie], lighter);
    assert [first] + [tie] == [first, tie] && [first, tie] + [lighter] == [first, tie, lighter];
    CacheIsCompleteUnlessTieStands([first, tie]);
    CacheIsCompleteUnlessTieStands([first, tie, lighter]);
  }

  lemma {:induction false} Compared(a: Arrival)
    requires Grows(a.before, a.after, a.vertex) && IsBlock(a.after, a.vertex) && |a.tips| == 1 && a.tips[0] in a.before
    requires a.next == if Score(a.after, a.vertex) > Score(a.before, a.tips[0]) then [a.vertex] else a.tips
    ensures IsArrival(a) && (Ties(a) <==> Score(a.after, a.vertex) == Score(a.before, a.tips[0]))
    ensures Wins(a) <==> Score(a.after, a.vertex) > Score(a.before, a.tips[0])
  {
  }

  /** When one block alone has the maximum score, it is the whole cache and its chain is
      exactly what is executed. */
  lemma {:induction false} OneHead(d: Dag, tips: seq<Hash>, m: Hash)
    requires Tips(d, tips) && Heaviest(d, m) && forall h | Heaviest(d, h) :: h == m
    ensures tips == [m] && ExecutedBlocks(d) == Chain(d, m)
  {
    assert Heaviest(d, tips[0]);
    var last := tips[|tips| - 1];
    assert last in tips && Heaviest(d, last);
    assert tips[0] == m == last;
    forall a | a in Chain(d, m) ensures Executed(d, a) { ChainInCone(d, m, a); }
  }

  lemma {:induction false} NextTipsAreHeaviest(d: Dag, e: Dag, b: Hash, tips: seq<Hash>)
    requires Grown(d, e, b) && Tips(d, tips) && tips[0] in d
    ensures Tips(e, NextTips(d, e, b, tips))
  {
    var m := tips[0];
    assert Heaviest(d, m);
    HeaviestAfter(d, e, b, m, b);
    forall t | t in tips && Score(e, b) <= Score(d, m) ensures Heaviest(e, t) {
      assert Heaviest(d, t);
      HeaviestAfter(d, e, b, m, t);
    }
  }
}
