/** Pushing vertices to a peer: transactions wait in a queue; a block goes to the priority queue
    and takes along, first, every queued vertex it depends on. */
module PushQueue {
  import opened Collections

  type Hash = nat

  /** Every vertex was added once and after those of its dependencies that were ever added. */
  ghost predicate AddedInOrder(deps: Hash -> seq<Hash>, added: seq<Hash>) {
    && Distinct(added)
    && forall i, j | 0 <= i < |added| && 0 <= j < |added| && added[j] in deps(added[i]) :: j < i
  }

  ghost function Rank(added: seq<Hash>, h: Hash): (i: nat)
    requires h in added
    ensures i < |added| && added[i] == h
  {
    var i :| 0 <= i < |added| && added[i] == h; i
  }

  /** Whatever a vertex of `s` depends on, if it was ever added, comes before it in `s`. */
  ghost predicate DependenciesFirst(deps: Hash -> seq<Hash>, added: seq<Hash>, s: seq<Hash>) {
    forall i, d | 0 <= i < |s| && d in deps(s[i]) && d in added :: d in s[..i]
  }

  /** `out`: sent, then prioritised; `moving`: on the way from the queue to the priority queue. */
  ghost predicate Good(deps: Hash -> seq<Hash>, added: seq<Hash>, out: seq<Hash>, queue: seq<Hash>, moving: set<Hash>) {
    && AddedInOrder(deps, added)
    && (forall h :: h in added <==> h in out || h in queue || h in moving)
    && Distinct(out)
    && (forall h | h in queue :: h !in out && h !in moving)
    && (forall h | h in moving :: h !in out)
    && DependenciesFirst(deps, added, out)
    && Sorted(added, queue)
  }

  lemma {:induction false} RankIsPlace(added: seq<Hash>, i: nat)
    requires Distinct(added) && i < |added|
    ensures Rank(added, added[i]) == i
  {
  }

  lemma {:induction false} DependencyIsOlder(deps: Hash -> seq<Hash>, added: seq<Hash>, x: Hash, d: Hash)
    requires AddedInOrder(deps, added) && x in added && d in added && d in deps(x)
    ensures Rank(added, d) < Rank(added, x)
  {
    assert added[Rank(added, d)] in deps(added[Rank(added, x)]);
  }

  ghost predicate Sorted(added: seq<Hash>, queue: seq<Hash>) {
    && (forall h | h in queue :: h in added)
    && forall i, j | 0 <= i < j < |queue| :: Rank(added, queue[i]) < Rank(added, queue[j])
  }

  lemma {:induction false} SortedWithout(added: seq<Hash>, queue: seq<Hash>, h: Hash)
    requires Sorted(added, queue) && h in queue
    ensures Sorted(added, Removed(queue, h)) && |Removed(queue, h)| < |queue|
    ensures forall k :: k in Removed(queue, h) <==> k in queue && k != h
    decreases |queue|
  {
    hide Rank;
    var tail := queue[1..];
    assert queue == [queue[0]] + tail;
    SortedTail(added, queue);
    if queue[0] != h {
      SortedWithout(added, tail, h);
      SortedCons(added, queue[0], Removed(tail, h));
    }
  }

  lemma {:induction false} SortedTail(added: seq<Hash>, queue: seq<Hash>)
    requires Sorted(added, queue) && queue != []
    ensures Sorted(added, queue[1..]) && queue[0] !in queue[1..]
    ensures forall k | k in queue[1..] :: Rank(added, queue[0]) < Rank(added, k)
  {
  }

  lemma {:induction false} SortedCons(added: seq<Hash>, h: Hash, queue: seq<Hash>)
    requires Sorted(added, queue) && h in added && forall k | k in queue :: Rank(added, h) < Rank(added, k)
    ensures Sorted(added, [h] + queue)
  {
  }

  lemma {:induction false} Popped(deps: Hash -> seq<Hash>, added: seq<Hash>, out: seq<Hash>, queue: seq<Hash>, moving: set<Hash>, h: Hash)
    requires Good(deps, added, out, queue, moving) && h in queue
    ensures Good(deps, added, out, Removed(queue, h), moving + {h}) && |Removed(queue, h)| < |queue|
    ensures forall k :: k in Removed(queue, h) <==> k in queue && k != h
  {
    hide Removed, AddedInOrder, Distinct, DependenciesFirst, Sorted;
    SortedWithout(added, queue, h);
  }

  lemma {:induction false} Prioritised(deps: Hash -> seq<Hash>, added: seq<Hash>, out: seq<Hash>, queue: seq<Hash>, moving: set<Hash>, x: Hash)
    requires Good(deps, added, out, queue, moving) && x in moving && forall d | d in deps(x) && d in added :: d in out
    ensures Good(deps, added, out + [x], queue, moving - {x})
  {
    var s := out + [x];
    forall i, d | 0 <= i < |s| && d in deps(s[i]) && d in added
      ensures d in s[..i]
    {
      assert i < |out| ==> s[..i] == out[..i] && s[i] == out[i];
      assert i == |out| ==> s[..i] == out && s[i] == x;
    }
  }

  ghost predicate Unneeded(deps: Hash -> seq<Hash>, added: seq<Hash>, x: Hash) {
    x !in added && x !in deps(x) && forall y | y in added :: x !in deps(y)
  }

  lemma {:induction false} NewlyAdded(deps: Hash -> seq<Hash>, added: seq<Hash>, x: Hash)
    requires AddedInOrder(deps, added) && Unneeded(deps, added, x)
    ensures AddedInOrder(deps, added + [x]) && Rank(added + [x], x) == |added|
    ensures forall h | h in added :: Rank(added + [x], h) == Rank(added, h)
  {
    var all := added + [x];
    forall i, j | 0 <= i < |all| && 0 <= j < |all| && all[j] in deps(all[i])
      ensures j < i
    {
      assert j < |added| ==> all[j] == added[j];
      assert i < |added| ==> all[i] == added[i];
    }
    RankIsPlace(all, |added|);
    forall h | h in added
      ensures Rank(all, h) == Rank(added, h)
    {
      RankIsPlace(all, Rank(added, h));
    }
  }

  lemma {:induction false} Enqueued(deps: Hash -> seq<Hash>, added: seq<Hash>, out: seq<Hash>, queue: seq<Hash>, x: Hash)
    requires Good(deps, added, out, queue, {}) && Unneeded(deps, added, x)
    ensures Good(deps, added + [x], out, queue + [x], {}) && Good(deps, added + [x], out, queue, {x})
  {
    NewlyAdded(deps, added, x);
    forall i, d | 0 <= i < |out| && d in deps(out[i]) && d in added + [x]
      ensures d in out[..i]
    {
      assert out[i] in added;
    }
    var q := queue + [x];
    forall i, j | 0 <= i < j < |q|
      ensures Rank(added + [x], q[i]) < Rank(added + [x], q[j])
    {
      assert q[i] == queue[i] && queue[i] in added;
      assert j < |queue| ==> q[j] == queue[j] && queue[j] in added;
    }
  }

  /** The head of the queue has nothing to wait for but what is out already. */
  lemma {:induction false} HeadIsReady(deps: Hash -> seq<Hash>, added: seq<Hash>, out: seq<Hash>, queue: seq<Hash>)
    requires Good(deps, added, out, queue, {}) && queue != []
    ensures Good(deps, added, out + [queue[0]], queue[1..], {})
  {
    var x := queue[0];
    forall d | d in deps(x) && d in added
      ensures d in out
    {
      DependencyIsOlder(deps, added, x, d);
      assert forall i | 0 <= i < |queue| :: queue[i] != d;
    }
    Popped(deps, added, out, queue, {}, x);
    assert Removed(queue, x) == queue[1..];
    Prioritised(deps, added, out, queue[1..], {} + {x}, x);
    assert {} + {x} - {x} == {};
  }

  /** What a peer sees: nothing twice, and no vertex before one it depends on, unless that was
      never added. Everything added has been sent or still waits. */
  lemma {:induction false} SentInOrder(deps: Hash -> seq<Hash>, added: seq<Hash>, sent: seq<Hash>, priority: seq<Hash>, queue: seq<Hash>)
    requires Good(deps, added, sent + priority, queue, {})
    ensures Distinct(sent + priority + queue) && multiset(sent + priority + queue) == multiset(added)
    ensures DependenciesFirst(deps, added, sent)
    ensures DependenciesFirst(deps, added, sent + priority + queue)
  {
    var out, all := sent + priority, sent + priority + queue;
    forall i, j | 0 <= i < j < |all|
      ensures all[i] != all[j]
    {
      assert i < |out| ==> all[i] == out[i];
      assert j < |out| ==> all[j] == out[j];
      assert i >= |out| ==> all[i] == queue[i - |out|] && Rank(added, queue[i - |out|]) < Rank(added, queue[j - |out|]);
      assert j >= |out| ==> all[j] == queue[j - |out|] && all[j] in queue;
    }
    SameElements(all, added);
    forall i, d | 0 <= i < |sent| && d in deps(sent[i]) && d in added
      ensures d in sent[..i]
    {
      assert out[i] == sent[i] && out[..i] == sent[..i];
    }
    forall i, d | 0 <= i < |all| && d in deps(all[i]) && d in added
      ensures d in all[..i]
    {
      EarlierInAll(deps, added, out, queue, i, d);
    }
  }

  lemma {:induction false} EarlierInAll(deps: Hash -> seq<Hash>, added: seq<Hash>, out: seq<Hash>, queue: seq<Hash>, i: nat, d: Hash)
    requires Good(deps, added, out, queue, {}) && i < |out + queue| && d in deps((out + queue)[i]) && d in added
    ensures d in (out + queue)[..i]
  {
    var all := out + queue;
    if i < |out| {
      assert all[i] == out[i] && all[..i] == out[..i];
    } else {
      var k := i - |out|;
      assert all[i] == queue[k] && all[..i] == out + queue[..k];
      if d !in out {
        var j :| 0 <= j < |queue| && queue[j] == d;
        DependencyIsOlder(deps, added, queue[k], d);
        assert j < k;
        assert queue[..k][j] == d;
      }
    }
  }

  lemma {:induction false} SameElements(a: seq<Hash>, b: seq<Hash>)
    requires Distinct(a) && Distinct(b) && forall h :: h in a <==> h in b
    ensures multiset(a) == multiset(b)
  {
    forall h
      ensures multiset(a)[h] == multiset(b)[h]
    {
      OnceEach(a, h);
      OnceEach(b, h);
    }
  }

  lemma {:induction false} OnceEach(s: seq<Hash>, h: Hash)
    requires Distinct(s)
    ensures multiset(s)[h] == if h in s then 1 else 0
    decreases |s|
  {
    if s != [] {
      var front, last := s[..|s| - 1], s[|s| - 1];
      OnceEach(front, h);
      assert s == front + [last];
    }
  }

  // ---- what goes ahead with a block

  /** From `x` to its dependency `path[0]` and on, each step to a queued dependency. */
  ghost predicate IsPath(deps: Hash -> seq<Hash>, queue: seq<Hash>, x: Hash, path: seq<Hash>)
    decreases |path|
  {
    path == [] || (path[0] in deps(x) && path[0] in queue && IsPath(deps, queue, path[0], path[1..]))
  }

  ghost predicate ReachedThroughQueue(deps: Hash -> seq<Hash>, queue: seq<Hash>, x: Hash, h: Hash) {
    exists path :: path != [] && path[|path| - 1] == h && IsPath(deps, queue, x, path)
  }

  /** The queue without what is reached, in its order. */
  ghost function Staying(deps: Hash -> seq<Hash>, whole: seq<Hash>, x: Hash, queue: seq<Hash>): seq<Hash> {
    if queue == [] then []
    else (if ReachedThroughQueue(deps, whole, x, queue[0]) then [] else [queue[0]]) + Staying(deps, whole, x, queue[1..])
  }

  lemma {:induction false} Reaches(deps: Hash -> seq<Hash>, queue: seq<Hash>, x: Hash, h: Hash)
    requires h in deps(x) && h in queue
    ensures ReachedThroughQueue(deps, queue, x, h)
  {
    assert IsPath(deps, queue, h, []) && [h][1..] == [];
    assert IsPath(deps, queue, x, [h]);
  }

  lemma {:induction false} PathStays(deps: Hash -> seq<Hash>, part: seq<Hash>, queue: seq<Hash>, x: Hash, path: seq<Hash>)
    requires IsPath(deps, part, x, path) && forall k | k in part :: k in queue
    ensures IsPath(deps, queue, x, path)
    decreases |path|
  {
    if path != [] {
      PathStays(deps, part, queue, path[0], path[1..]);
    }
  }

  lemma {:induction false} ReachesOn(deps: Hash -> seq<Hash>, part: seq<Hash>, queue: seq<Hash>, x: Hash, y: Hash, h: Hash)
    requires y in deps(x) && y in queue && (forall k | k in part :: k in queue) && ReachedThroughQueue(deps, part, y, h)
    ensures ReachedThroughQueue(deps, queue, x, h)
  {
    var path :| path != [] && path[|path| - 1] == h && IsPath(deps, part, y, path);
    PathStays(deps, part, queue, y, path);
    assert ([y] + path)[1..] == path;
    assert IsPath(deps, queue, x, [y] + path);
  }

  /** Whatever is reached from something out is out as well. */
  lemma {:induction false} PathIsOut(deps: Hash -> seq<Hash>, added: seq<Hash>, out: seq<Hash>, queue: seq<Hash>, x: Hash, path: seq<Hash>)
    requires DependenciesFirst(deps, added, out) && x in out && (forall k | k in queue :: k in added)
    requires path != [] && IsPath(deps, queue, x, path)
    ensures path[|path| - 1] in out
    decreases |path|
  {
    var i :| 0 <= i < |out| && out[i] == x;
    assert path[0] in out[..i];
    if |path| > 1 {
      PathIsOut(deps, added, out, queue, path[0], path[1..]);
    }
  }

  lemma {:induction false} SortedSame(added: seq<Hash>, a: seq<Hash>, b: seq<Hash>)
    requires Sorted(added, a) && Sorted(added, b) && forall h :: h in a <==> h in b
    ensures a == b
    decreases |a|
  {
    hide Rank;
    if b != [] {
      assert b[0] in b;
    }
    if a != [] {
      assert a[0] in a && a[0] in b && b[0] in b && b[0] in a;
      SortedTail(added, a);
      SortedTail(added, b);
      assert a == [a[0]] + a[1..] && b == [b[0]] + b[1..];
      assert a[0] == b[0];
      forall h
        ensures h in a[1..] <==> h in b[1..]
      {
        assert h in a <==> h == a[0] || h in a[1..];
        assert h in b <==> h == b[0] || h in b[1..];
      }
      SortedSame(added, a[1..], b[1..]);
    }
  }

  lemma {:induction false} StayingIs(deps: Hash -> seq<Hash>, added: seq<Hash>, whole: seq<Hash>, x: Hash, queue: seq<Hash>)
    requires Sorted(added, queue)
    ensures Sorted(added, Staying(deps, whole, x, queue))
    ensures forall h :: h in Staying(deps, whole, x, queue) <==> h in queue && !ReachedThroughQueue(deps, whole, x, h)
    decreases |queue|
  {
    hide Rank, ReachedThroughQueue;
    if queue != [] {
      SortedTail(added, queue);
      StayingIs(deps, added, whole, x, queue[1..]);
      var rest := Staying(deps, whole, x, queue[1..]);
      assert queue == [queue[0]] + queue[1..];
      SortedCons(added, queue[0], rest);
      assert [] + rest == rest;
    }
  }

  /** After a block was prioritised: exactly what it reaches has left the queue, what stays keeps
      its order, and what joined the priority queue is what left and the block. */
  lemma {:induction false} Moved(deps: Hash -> seq<Hash>, added: seq<Hash>, sent: seq<Hash>, priority: seq<Hash>, queue: seq<Hash>,
                                 priority': seq<Hash>, queue': seq<Hash>, x: Hash)
    requires Good(deps, added, sent + priority, queue, {x}) && Good(deps, added, sent + priority', queue', {}) && priority <= priority' && x in priority'
    requires forall h | h in queue' :: h in queue
    requires forall h | h in queue && h !in queue' :: ReachedThroughQueue(deps, queue, x, h)
    ensures queue' == Staying(deps, queue, x, queue)
    ensures forall h :: h in queue' <==> h in queue && !ReachedThroughQueue(deps, queue, x, h)
    ensures forall h :: h in priority'[|priority|..] <==> h == x || (h in queue && h !in queue')
  {
    hide Sorted, AddedInOrder;
    forall h | h in queue && ReachedThroughQueue(deps, queue, x, h)
      ensures h !in queue'
    {
      var path :| path != [] && path[|path| - 1] == h && IsPath(deps, queue, x, path);
      PathIsOut(deps, added, sent + priority', queue, x, path);
    }
    StayingIs(deps, added, queue, x, queue);
    SortedSame(added, queue', Staying(deps, queue, x, queue));
    forall h
      ensures h in priority'[|priority|..] <==> h == x || (h in queue && h !in queue')
    {
      Joined(sent, priority, priority', h);
    }
  }

  lemma {:induction false} Joined(sent: seq<Hash>, priority: seq<Hash>, priority': seq<Hash>, h: Hash)
    requires priority <= priority' && Distinct(sent + priority')
    ensures h in priority'[|priority|..] <==> h in sent + priority' && h !in sent + priority
  {
    var all := sent + priority';
    assert all == (sent + priority) + priority'[|priority|..];
    if h in priority'[|priority|..] {
      var i :| 0 <= i < |priority'[|priority|..]| && priority'[|priority|..][i] == h;
      assert all[|sent + priority| + i] == h;
      assert forall j | 0 <= j < |sent + priority| :: all[j] == (sent + priority)[j];
    }
  }

  class SendDataPush {
    const deps: Hash -> seq<Hash>
    var queue: seq<Hash>
    var priorityQueue: seq<Hash>
    var sent: seq<Hash>
    ghost var added: seq<Hash>

    constructor (deps: Hash -> seq<Hash>)
      ensures this.deps == deps && queue == priorityQueue == sent == added == [] && Valid()
    {
      this.deps := deps;
      queue, priorityQueue, sent, added := [], [], [], [];
    }

    ghost predicate Valid()
      reads this
    {
      Good(deps, added, sent + priorityQueue, queue, {})
    }

    method Add(x: Hash, isBlock: bool)
      requires Valid() && Unneeded(deps, added, x)
      modifies this
      ensures Valid() && added == old(added) + [x] && sent == old(sent)
      ensures !isBlock ==> queue == old(queue) + [x] && priorityQueue == old(priorityQueue)
      ensures isBlock ==> priorityQueue != [] && priorityQueue[|priorityQueue| - 1] == x && old(priorityQueue) < priorityQueue
      ensures isBlock ==> queue == Staying(deps, old(queue), x, old(queue))
      ensures isBlock ==> forall h | h in old(queue) :: h in queue <==> !ReachedThroughQueue(deps, old(queue), x, h)
      ensures isBlock ==> forall h :: h in priorityQueue[|old(priorityQueue)|..] <==> h == x || (h in old(queue) && h !in queue)
    {
      hide Good, Staying, ReachedThroughQueue;
      Enqueued(deps, added, sent + priorityQueue, queue, x);
      added := added + [x];
      if isBlock {
        assert {} + {x} == {x};
        NotOutYet(deps, added, sent + priorityQueue, queue, {x}, x);
        AddToPriority(x, {});
        Moved(deps, added, sent, old(priorityQueue), old(queue), priorityQueue, queue, x);
      } else {
        queue := queue + [x];
      }
    }

    method AddToPriority(x: Hash, ghost moving: set<Hash>)
      requires x !in queue && x in added && forall y | y in moving :: y in added && Rank(added, x) < Rank(added, y)
      requires Good(deps, added, sent + priorityQueue, queue, if x in priorityQueue then moving else moving + {x})
      modifies `queue, `priorityQueue
      ensures Good(deps, added, sent + priorityQueue, queue, moving)
      ensures |queue| <= |old(queue)| && forall h | h in queue :: h in old(queue)
      ensures forall h | h in old(queue) && h !in queue :: ReachedThroughQueue(deps, old(queue), x, h)
      ensures old(priorityQueue) <= priorityQueue && x in priorityQueue
      ensures x !in old(priorityQueue) ==> priorityQueue[|priorityQueue| - 1] == x
      decreases |queue|
    {
      hide Good, Rank, Removed, ReachedThroughQueue;
      if x in priorityQueue {
        return;
      }
      ghost var all := moving + {x};
      var ds := deps(x);
      var k := 0;
      while k < |ds|
        invariant k <= |ds| && |queue| <= |old(queue)| && (forall h | h in queue :: h in old(queue))
        invariant old(priorityQueue) <= priorityQueue
        invariant forall h | h in old(queue) && h !in queue :: ReachedThroughQueue(deps, old(queue), x, h)
        invariant Good(deps, added, sent + priorityQueue, queue, all)
        invariant forall i | 0 <= i < k && ds[i] in added :: ds[i] in sent + priorityQueue
      {
        var h := ds[k];
        ghost var out := sent + priorityQueue;
        AddedOf(deps, added, out, queue, all, x, h);
        if h in queue {
          Popped(deps, added, out, queue, all, h);
          Reaches(deps, old(queue), x, h);
          queue := Removed(queue, h);
          ghost var part := queue;
          NotOutYet(deps, added, out, queue, all + {h}, h);
          AddToPriority(h, all);
          assert out <= sent + priorityQueue;
          forall g | g in part && g !in queue
            ensures ReachedThroughQueue(deps, old(queue), x, g)
          {
            ReachesOn(deps, part, old(queue), x, h, g);
          }
        }
        k := k + 1;
      }
      NotOutYet(deps, added, sent + priorityQueue, queue, all, x);
      forall d | d in deps(x) && d in added
        ensures d in sent + priorityQueue
      {
        var i :| 0 <= i < |ds| && ds[i] == d;
      }
      Prioritised(deps, added, sent + priorityQueue, queue, all, x);
      assert all - {x} == moving by { NotMoving(added, moving, x); }
      assert (sent + priorityQueue) + [x] == sent + (priorityQueue + [x]);
      priorityQueue := priorityQueue + [x];
    }

    /** Sends one vertex, or reports that there is nothing to send. */
    method SendNext() returns (nothing: bool)
      requires Valid()
      modifies this
      ensures Valid() && added == old(added)
      ensures nothing == (old(queue) == [] && old(priorityQueue) == [])
      ensures sent + priorityQueue + queue == old(sent + priorityQueue + queue)
      ensures |sent| == |old(sent)| + if nothing then 0 else 1
    {
      hide Good;
      if |priorityQueue| > 0 {
        assert (sent + [priorityQueue[0]]) + priorityQueue[1..] == sent + priorityQueue;
        sent, priorityQueue := sent + [priorityQueue[0]], priorityQueue[1..];
      } else if |queue| > 0 {
        assert sent + priorityQueue == sent && (sent + [queue[0]]) + priorityQueue == sent + [queue[0]];
        HeadIsReady(deps, added, sent, queue);
        sent, queue := sent + [queue[0]], queue[1..];
      } else {
        return true;
      }
      return false;
    }
  }

  lemma {:induction false} NotOutYet(deps: Hash -> seq<Hash>, added: seq<Hash>, out: seq<Hash>, queue: seq<Hash>, moving: set<Hash>, x: Hash)
    requires Good(deps, added, out, queue, moving) && x in moving
    ensures x !in out && x !in queue && x in added
  {
  }

  lemma {:induction false} NotMoving(added: seq<Hash>, moving: set<Hash>, x: Hash)
    requires x in added && forall y | y in moving :: y in added && Rank(added, x) < Rank(added, y)
    ensures x !in moving
  {
  }

  /** A dependency that was added is out, or it can be popped from the queue: it is not on its way. */
  lemma {:induction false} AddedOf(deps: Hash -> seq<Hash>, added: seq<Hash>, out: seq<Hash>, queue: seq<Hash>, moving: set<Hash>, x: Hash, d: Hash)
    requires Good(deps, added, out, queue, moving) && x in added && d in deps(x)
    requires forall y | y in moving :: y in added && Rank(added, x) <= Rank(added, y)
    ensures d in added ==> d in out || d in queue
    ensures d in queue ==> d in added && forall y | y in moving :: Rank(added, d) < Rank(added, y)
  {
    if d in added {
      DependencyIsOlder(deps, added, x, d);
    }
  }
}
