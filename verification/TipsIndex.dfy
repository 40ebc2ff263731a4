/** The index of tips at any timestamp: for each indexed vertex, the interval from its own
    timestamp to the first indexed vertex that verifies it. */
module TipsIndex {
  import opened Collections

  type Hash = nat

  datatype Vertex = Vertex(isBlock: bool, timestamp: nat, parents: seq<Hash>)

  type Store = map<Hash, Vertex>

  predicate ValidStore(store: Store) {
    forall h, p | h in store && p in store[h].parents :: p in store && store[p].timestamp < store[h].timestamp
  }

  function Children(store: Store, h: Hash): set<Hash> { set c | c in store && h in store[c].parents }

  /** The indexed vertices that verify `h`. */
  function Verifiers(store: Store, indexed: set<Hash>, h: Hash): set<Hash> { Children(store, h) * indexed }

  /** `end == None` stands for infinity. */
  datatype Interval = Interval(begin: nat, end: Option<nat>, data: Hash)
  {
    predicate Contains(t: nat) { begin <= t && (end.None? || t < end.value) }
  }

  /** The smallest timestamp of the given vertices, or infinity. */
  predicate IsFirst(store: Store, vertices: set<Hash>, end: Option<nat>)
    requires vertices <= store.Keys
  {
    match end
    case None => vertices == {}
    case Some(t) => (exists c :: c in vertices && store[c].timestamp == t) && forall c | c in vertices :: t <= store[c].timestamp
  }

  predicate IsRight(store: Store, indexed: set<Hash>, h: Hash, i: Interval) {
    h in store && i.begin == store[h].timestamp && i.data == h && IsFirst(store, Verifiers(store, indexed, h), i.end)
  }

  predicate AllRight(store: Store, isBlock: bool, last: map<Hash, Interval>) {
    && last.Keys <= store.Keys
    && (forall h | h in last :: store[h].isBlock == isBlock)
    && forall h | h in last :: IsRight(store, last.Keys, h, last[h])
  }

  // ---- what a lookup means

  /** Indexed vertices that exist at `t` and are not verified by another one yet. */
  function TipsAt(store: Store, indexed: set<Hash>, t: nat): set<Hash>
    requires indexed <= store.Keys
  {
    set h | h in indexed && store[h].timestamp <= t && forall c | c in Verifiers(store, indexed, h) :: t < store[c].timestamp
  }

  function Found(tree: set<Interval>, t: nat): set<Hash> { set i | i in tree && i.Contains(t) :: i.data }

  lemma {:induction false} LookupGivesTips(store: Store, isBlock: bool, last: map<Hash, Interval>, t: nat)
    requires AllRight(store, isBlock, last)
    ensures Found(last.Values, t) == TipsAt(store, last.Keys, t)
  {
    forall h | h in last
      ensures last[h].Contains(t) <==> h in TipsAt(store, last.Keys, t)
    {
      assert IsRight(store, last.Keys, h, last[h]);
    }
    forall h | h in TipsAt(store, last.Keys, t)
      ensures h in Found(last.Values, t)
    {
      assert last[h] in last.Values && last[h].data == h;
    }
  }

  /** New vertices in the store do not disturb an index that does not hold them. */
  lemma {:induction false} StoreMayGrow(store: Store, more: Store, isBlock: bool, last: map<Hash, Interval>)
    requires AllRight(store, isBlock, last)
    requires forall h | h in store :: h in more && more[h] == store[h]
    ensures AllRight(more, isBlock, last)
  {
    forall h | h in last
      ensures IsRight(more, last.Keys, h, last[h])
    {
      assert Verifiers(more, last.Keys, h) == Verifiers(store, last.Keys, h);
    }
  }

  // ---- steps

  function Earlier(e: Option<nat>, t: nat): Option<nat> {
    if e.None? || t < e.value then Some(t) else e
  }

  lemma {:induction false} OneMore(store: Store, vertices: set<Hash>, end: Option<nat>, c: Hash)
    requires vertices <= store.Keys && c in store && IsFirst(store, vertices, end)
    ensures IsFirst(store, vertices + {c}, Earlier(end, store[c].timestamp))
  {
    var t := store[c].timestamp;
    assert c in vertices + {c};
    if end.Some? {
      var d :| d in vertices && store[d].timestamp == end.value;
      assert d in vertices + {c};
    }
  }

  lemma {:induction false} VerifiersWith(store: Store, indexed: set<Hash>, h: Hash, p: Hash)
    requires h in store
    ensures p in store[h].parents ==> Verifiers(store, indexed + {h}, p) == Verifiers(store, indexed, p) + {h}
    ensures p !in store[h].parents ==> Verifiers(store, indexed + {h}, p) == Verifiers(store, indexed, p)
  {
  }

  lemma {:induction false} ValuesReplaced(last: map<Hash, Interval>, h: Hash, i: Interval)
    requires i.data == h && forall k | k in last :: last[k].data == k
    ensures h in last ==> last[h := i].Values == last.Values - {last[h]} + {i}
    ensures h !in last ==> last[h := i].Values == last.Values + {i}
  {
    var m := last[h := i];
    assert m[h] in m.Values;
    forall k | k in last && k != h
      ensures last[k] in m.Values
    {
      assert m[k] == last[k] && m[k] in m.Values;
    }
    assert h in last ==> m.Values == last.Values - {last[h]} + {i};
    assert h !in last ==> m.Values == last.Values + {i};
  }

  lemma {:induction false} ValuesRemoved(last: map<Hash, Interval>, h: Hash)
    requires h in last && forall k | k in last :: last[k].data == k
    ensures (last - {h}).Values == last.Values - {last[h]}
  {
    var m := last - {h};
    forall k | k in last && k != h
      ensures last[k] in m.Values
    {
      assert m[k] == last[k] && m[k] in m.Values;
    }
  }

  /** While the parents of `h` are visited: those seen count `h` as indexed or not as `after`
      says, the others as `before` says. */
  predicate Visiting(store: Store, isBlock: bool, last: map<Hash, Interval>, before: set<Hash>, after: set<Hash>, seen: seq<Hash>) {
    && last.Keys <= store.Keys
    && (forall p | p in last :: store[p].isBlock == isBlock)
    && (forall p | p in last && p in seen :: IsRight(store, after, p, last[p]))
    && forall p | p in last && p !in seen :: IsRight(store, before, p, last[p])
  }

  lemma {:induction false} Visited(store: Store, isBlock: bool, last: map<Hash, Interval>, before: set<Hash>, after: set<Hash>, seen: seq<Hash>, p: Hash, i: Interval)
    requires Visiting(store, isBlock, last, before, after, seen) && p in last && IsRight(store, after, p, i)
    ensures Visiting(store, isBlock, last[p := i], before, after, seen + [p])
    ensures last[p := i].Keys == last.Keys
  {
  }

  lemma {:induction false} Skipped(store: Store, isBlock: bool, last: map<Hash, Interval>, before: set<Hash>, after: set<Hash>, seen: seq<Hash>, p: Hash)
    requires Visiting(store, isBlock, last, before, after, seen) && (p in last ==> IsRight(store, after, p, last[p]))
    ensures Visiting(store, isBlock, last, before, after, seen + [p])
  {
  }

  /** Once all parents of `h` are visited, every interval is right whether or not `h` verifies it. */
  lemma {:induction false} AllVisited(store: Store, isBlock: bool, last: map<Hash, Interval>, without: set<Hash>, h: Hash)
    requires h in store
    ensures Visiting(store, isBlock, last, without, without + {h}, store[h].parents) ==>
              forall p | p in last :: IsRight(store, without + {h}, p, last[p])
    ensures Visiting(store, isBlock, last, without + {h}, without, store[h].parents) ==>
              forall p | p in last :: IsRight(store, without, p, last[p])
  {
    forall p | p in last && p !in store[h].parents
      ensures Verifiers(store, without + {h}, p) == Verifiers(store, without, p)
    {
      VerifiersWith(store, without, h, p);
    }
  }

  class TipsIndex {
    const isBlock: bool
    var tree: set<Interval>
    var lastInterval: map<Hash, Interval>

    constructor (isBlock: bool)
      ensures this.isBlock == isBlock && lastInterval == map[] && Valid(map[])
    {
      this.isBlock := isBlock;
      tree, lastInterval := {}, map[];
    }

    ghost predicate Valid(store: Store)
      reads this
    {
      ValidStore(store) && AllRight(store, isBlock, lastInterval) && tree == lastInterval.Values
    }

    function Lookup(ghost store: Store, t: nat): (tips: set<Hash>)
      requires Valid(store)
      reads this
      ensures tips == TipsAt(store, lastInterval.Keys, t)
    {
      LookupGivesTips(store, isBlock, lastInterval, t);
      Found(tree, t)
    }

    method MinTimestamp(store: Store, children: set<Hash>) returns (min: Option<nat>)
      requires children <= store.Keys && lastInterval.Keys <= store.Keys
      ensures IsFirst(store, children * lastInterval.Keys, min)
    {
      min := None;
      var left, seen := children, {};
      while left != {}
        invariant left <= children && seen == (children - left) * lastInterval.Keys && IsFirst(store, seen, min)
      {
        var c :| c in left;
        if c in lastInterval {
          OneMore(store, seen, min, c);
          min, seen := Earlier(min, store[c].timestamp), seen + {c};
        }
        left := left - {c};
      }
      assert seen == children * lastInterval.Keys;
    }

    method ReplaceInterval(h: Hash, i: Interval)
      requires h in lastInterval && i.data == h && tree == lastInterval.Values && forall k | k in lastInterval :: lastInterval[k].data == k
      modifies this
      ensures lastInterval == old(lastInterval)[h := i] && tree == lastInterval.Values
    {
      ValuesReplaced(lastInterval, h, i);
      tree := tree - {lastInterval[h]};
      tree := tree + {i};
      lastInterval := lastInterval[h := i];
    }

    method FixParents(store: Store, h: Hash)
      requires Valid(store) && h in store && h !in lastInterval
      modifies this
      ensures lastInterval.Keys == old(lastInterval.Keys) && tree == lastInterval.Values
      ensures Visiting(store, isBlock, lastInterval, lastInterval.Keys, lastInterval.Keys + {h}, store[h].parents)
    {
      hide IsRight, Verifiers, Visiting, Children;
      var tx := store[h];
      ghost var keys := lastInterval.Keys;
      Entering(store, isBlock, lastInterval, lastInterval, keys + {h});
      var k := 0;
      while k < |tx.parents|
        invariant k <= |tx.parents| && lastInterval.Keys == keys && tree == lastInterval.Values
        invariant Visiting(store, isBlock, lastInterval, keys, keys + {h}, tx.parents[..k])
      {
        var p := tx.parents[k];
        assert tx.parents[..k + 1] == tx.parents[..k] + [p];
        if p in lastInterval {
          var pi := lastInterval[p];
          AddedVerifier(store, isBlock, lastInterval, keys, tx.parents[..k], h, p);
          if pi.end.None? || tx.timestamp < pi.end.value {
            var newInterval := Interval(pi.begin, Some(tx.timestamp), pi.data);
            OwnData(store, isBlock, lastInterval, keys, keys + {h}, tx.parents[..k]);
            Visited(store, isBlock, lastInterval, keys, keys + {h}, tx.parents[..k], p, newInterval);
            ReplaceInterval(p, newInterval);
          } else {
            Skipped(store, isBlock, lastInterval, keys, keys + {h}, tx.parents[..k], p);
          }
        } else {
          Skipped(store, isBlock, lastInterval, keys, keys + {h}, tx.parents[..k], p);
        }
        k := k + 1;
      }
      assert tx.parents[..k] == tx.parents;
    }

    method AddTx(store: Store, h: Hash) returns (added: bool)
      requires Valid(store) && h in store && store[h].isBlock == isBlock
      modifies this
      ensures Valid(store) && lastInterval.Keys == old(lastInterval.Keys) + {h}
      ensures added == (h !in old(lastInterval)) && (!added ==> lastInterval == old(lastInterval))
    {
      hide IsRight, Verifiers, IsFirst;
      if h in lastInterval {
        return false;
      }
      var tx := store[h];
      FixParents(store, h);
      OwnData(store, isBlock, lastInterval, lastInterval.Keys, lastInterval.Keys + {h}, tx.parents);
      var min := MinTimestamp(store, Children(store, h));
      var interval := Interval(tx.timestamp, min, h);
      ValuesReplaced(lastInterval, h, interval);
      Inserted(store, isBlock, lastInterval, h, interval);
      tree := tree + {interval};
      lastInterval := lastInterval[h := interval];
      return true;
    }

    /** `ok` is false where the source stops on an assertion: a vertex that is still verified by
        an indexed one is deleted without relaxing the assertion. */
    method DelTx(store: Store, voided: set<Hash>, h: Hash, relaxAssert: bool) returns (ok: bool)
      requires Valid(store) && h in store
      requires forall p | p in store[h].parents && store[p].isBlock == store[h].isBlock :: p in lastInterval <==> p !in voided
      modifies this
      ensures ok == (relaxAssert || h !in old(lastInterval) || Verifiers(store, old(lastInterval.Keys), h) == {})
      ensures ok ==> Valid(store) && lastInterval.Keys == old(lastInterval.Keys) - {h}
    {
      hide IsRight, Verifiers, Visiting, Children, AllRight;
      if h !in lastInterval {
        return true;
      }
      var interval := lastInterval[h];
      InfinityMeansTip(store, isBlock, lastInterval, h);
      Kinds(store, isBlock, lastInterval);
      OwnDataOf(store, isBlock, lastInterval);
      ValuesRemoved(lastInterval, h);
      lastInterval := lastInterval - {h};
      if !relaxAssert && interval.end != None {
        return false;
      }
      tree := tree - {interval};
      var tx := store[h];
      ghost var keys := lastInterval.Keys;
      assert old(lastInterval).Keys == keys + {h};
      Entering(store, isBlock, old(lastInterval), lastInterval, keys);
      var k := 0;
      while k < |tx.parents|
        invariant k <= |tx.parents| && lastInterval.Keys == keys && tree == lastInterval.Values
        invariant Visiting(store, isBlock, lastInterval, keys + {h}, keys, tx.parents[..k])
      {
        var p := tx.parents[k];
        assert tx.parents[..k + 1] == tx.parents[..k] + [p];
        if store[p].isBlock == tx.isBlock {
          UpdateTx(store, p, voided, keys + {h}, tx.parents[..k]);
        } else {
          OfItsKind(store, isBlock, lastInterval, keys + {h}, keys, tx.parents[..k]);
          Skipped(store, isBlock, lastInterval, keys + {h}, keys, tx.parents[..k], p);
        }
        k := k + 1;
      }
      assert tx.parents[..k] == tx.parents;
      AllRightWithout(store, isBlock, lastInterval, h);
      return true;
    }

    method UpdateTx(store: Store, h: Hash, voided: set<Hash>, ghost before: set<Hash>, ghost seen: seq<Hash>)
      requires ValidStore(store) && (h in lastInterval <==> h !in voided) && tree == lastInterval.Values
      requires Visiting(store, isBlock, lastInterval, before, lastInterval.Keys, seen)
      modifies this
      ensures lastInterval.Keys == old(lastInterval.Keys) && tree == lastInterval.Values
      ensures Visiting(store, isBlock, lastInterval, before, lastInterval.Keys, seen + [h])
    {
      hide IsFirst;
      if h in voided {
        Skipped(store, isBlock, lastInterval, before, lastInterval.Keys, seen, h);
        return;
      }
      var pi := lastInterval[h];
      OwnData(store, isBlock, lastInterval, before, lastInterval.Keys, seen);
      var min := MinTimestamp(store, Children(store, h));
      if min != pi.end {
        Visited(store, isBlock, lastInterval, before, lastInterval.Keys, seen, h, Interval(pi.begin, min, pi.data));
        ReplaceInterval(h, Interval(pi.begin, min, pi.data));
      } else {
        Skipped(store, isBlock, lastInterval, before, lastInterval.Keys, seen, h);
      }
    }
  }

  lemma {:induction false} OfItsKind(store: Store, isBlock: bool, last: map<Hash, Interval>, before: set<Hash>, after: set<Hash>, seen: seq<Hash>)
    requires Visiting(store, isBlock, last, before, after, seen)
    ensures forall k | k in last :: k in store && store[k].isBlock == isBlock
  {
  }

  lemma {:induction false} Kinds(store: Store, isBlock: bool, last: map<Hash, Interval>)
    requires AllRight(store, isBlock, last)
    ensures forall k | k in last :: k in store && store[k].isBlock == isBlock
  {
  }

  lemma {:induction false} OwnData(store: Store, isBlock: bool, last: map<Hash, Interval>, before: set<Hash>, after: set<Hash>, seen: seq<Hash>)
    requires Visiting(store, isBlock, last, before, after, seen)
    ensures forall k | k in last :: last[k].data == k
  {
  }

  lemma {:induction false} OwnDataOf(store: Store, isBlock: bool, last: map<Hash, Interval>)
    requires AllRight(store, isBlock, last)
    ensures forall k | k in last :: last[k].data == k
  {
  }

  lemma {:induction false} InfinityMeansTip(store: Store, isBlock: bool, last: map<Hash, Interval>, h: Hash)
    requires AllRight(store, isBlock, last) && h in last
    ensures last[h].end == None <==> Verifiers(store, last.Keys, h) == {}
  {
    assert IsRight(store, last.Keys, h, last[h]);
  }

  lemma {:induction false} AddedVerifier(store: Store, isBlock: bool, last: map<Hash, Interval>, keys: set<Hash>, seen: seq<Hash>, h: Hash, p: Hash)
    requires Visiting(store, isBlock, last, keys, keys + {h}, seen) && h in store && p in store[h].parents && p in last && keys <= store.Keys
    ensures IsRight(store, keys + {h}, p, last[p].(end := Earlier(last[p].end, store[h].timestamp)))
  {
    VerifiersWith(store, keys, h, p);
    var v := Verifiers(store, if p in seen then keys + {h} else keys, p);
    OneMore(store, v, last[p].end, h);
    assert v + {h} == Verifiers(store, keys + {h}, p);
  }

  lemma {:induction false} NewInterval(store: Store, keys: set<Hash>, h: Hash, i: Interval)
    requires ValidStore(store) && h in store && i.begin == store[h].timestamp && i.data == h
    requires IsFirst(store, Children(store, h) * keys, i.end)
    ensures IsRight(store, keys + {h}, h, i)
  {
    VerifiersWith(store, keys, h, h);
  }

  lemma {:induction false} Inserted(store: Store, isBlock: bool, last: map<Hash, Interval>, h: Hash, i: Interval)
    requires ValidStore(store) && h in store && store[h].isBlock == isBlock && i.begin == store[h].timestamp && i.data == h
    requires Visiting(store, isBlock, last, last.Keys, last.Keys + {h}, store[h].parents)
    requires IsFirst(store, Children(store, h) * last.Keys, i.end)
    ensures AllRight(store, isBlock, last[h := i])
  {
    hide IsRight, IsFirst, ValidStore, Verifiers, Children;
    AllVisited(store, isBlock, last, last.Keys, h);
    NewInterval(store, last.Keys, h, i);
    assert last[h := i].Keys == last.Keys + {h};
  }

  lemma {:induction false} AllRightWithout(store: Store, isBlock: bool, last: map<Hash, Interval>, h: Hash)
    requires h in store && Visiting(store, isBlock, last, last.Keys + {h}, last.Keys, store[h].parents)
    ensures AllRight(store, isBlock, last)
  {
    AllVisited(store, isBlock, last, last.Keys, h);
  }

  lemma {:induction false} Entering(store: Store, isBlock: bool, all: map<Hash, Interval>, left: map<Hash, Interval>, after: set<Hash>)
    requires AllRight(store, isBlock, all) && left.Keys <= all.Keys && forall p | p in left :: left[p] == all[p]
    ensures Visiting(store, isBlock, left, all.Keys, after, [])
  {
    hide IsRight;
  }
}
