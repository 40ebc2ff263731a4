/** How voidance spreads over transactions: which hashes a transaction carries in its
    `voided_by`, over every run of arrivals, voidings and wins. Which transaction is
    voided or wins is left open. */
module TxVoiding {

  type Hash = nat

  // An input names the transaction that it spends from and the index of the output.
  datatype Spend = Spend(txId: Hash, index: nat)

  datatype Tx = Tx(timestamp: nat, parents: seq<Hash>, inputs: seq<Spend>)

  /** The transactions that `tx` verifies or spends from. */
  function Sources(tx: Tx): set<Hash> {
    (set p | p in tx.parents) + (set i | i in tx.inputs :: i.txId)
  }

  ghost predicate ValidTx(d: map<Hash, Tx>, tx: Tx) {
    forall p | p in Sources(tx) :: p in d && d[p].timestamp < tx.timestamp
  }

  type Graph = d: map<Hash, Tx> | forall h {:trigger ValidTx(d, d[h])} | h in d :: ValidTx(d, d[h])
    witness map[]

  /** Children and spenders of `h`. */
  function Targets(d: Graph, h: Hash): set<Hash> {
    set c | c in d && h in Sources(d[c])
  }

  /** What `h` descends from, and `h` itself. */
  ghost function Past(d: Graph, h: Hash): set<Hash>
    requires h in d
    decreases d[h].timestamp
  {
    assert ValidTx(d, d[h]);
    {h} + (set p, a | p in Sources(d[h]) && a in Past(d, p) :: a)
  }

  /** Every transaction that spends an output that `h` spends too. */
  function Rivals(d: Graph, h: Hash): set<Hash>
    requires h in d
  {
    set x | x in d && x != h && Shares(d[x], d[h])
  }

  /** What an arriving transaction conflicts with. */
  function Conflicting(d: Graph, tx: Tx): set<Hash> {
    set x | x in d && Shares(d[x], tx)
  }

  predicate Shares(a: Tx, b: Tx) {
    exists i | i in a.inputs :: i in b.inputs
  }

  type Voidance = map<Hash, set<Hash>>

  // ---- the invariant

  /** `t` carries `h`: `h` is in the `voided_by` of `t`. */
  ghost predicate Carries(v: Voidance, t: Hash, h: Hash) { t in v && h in v[t] }

  /** The carriers of `h` other than `h` are closed under children and spenders, each has a
      parent or input that is `h` or carries it too, and there are none unless `h` carries
      its own hash. */
  ghost predicate Spread(d: Graph, v: Voidance, h: Hash) {
    && (forall t, c | t != h && Carries(v, t, h) && c in d && t in Sources(d[c]) :: Carries(v, c, h))
    && (forall t | t != h && Carries(v, t, h) :: Supported(d, v, h, t))
    && (forall t | Carries(v, t, h) :: Carries(v, h, h))
  }

  ghost predicate Supported(d: Graph, v: Voidance, h: Hash, t: Hash) {
    t in d && exists p :: p in Sources(d[t]) && (p == h || Carries(v, p, h))
  }

  ghost predicate Consistent(d: Graph, v: Voidance) {
    v.Keys == d.Keys && forall h :: Spread(d, v, h)
  }

  // ---- the three steps, as functions of the state before them

  /** What an arriving transaction inherits from its parents and inputs. */
  function Inherited(d: Graph, v: Voidance, tx: Tx): set<Hash>
    requires v.Keys == d.Keys && ValidTx(d, tx)
  {
    set p, h | p in Sources(tx) && h in v[p] :: h
  }

  ghost function Arrive(d: Graph, v: Voidance, n: Hash, tx: Tx): Voidance
    requires v.Keys == d.Keys && ValidTx(d, tx) && n !in d
  {
    v[n := if Conflicting(d, tx) != {} then Inherited(d, v, tx) + {n} else Inherited(d, v, tx)]
  }

  /** Voids `t`: all that descends from it carries its hash, and what has rivals there also
      carries its own. */
  ghost function Void(d: Graph, v: Voidance, t: Hash): (w: Voidance)
    requires v.Keys == d.Keys
    ensures w.Keys == d.Keys
  {
    map x | x in d :: if t in Past(d, x) then v[x] + {t} + (if Rivals(d, x) != {} then {x} else {}) else v[x]
  }

  ghost function Win(v: Voidance, t: Hash): Voidance {
    map x | x in v :: v[x] - {t}
  }

  // ---- the graph

  lemma {:induction false} PastStep(d: Graph, x: Hash, c: Hash)
    requires c in d && x in Sources(d[c])
    ensures x in d && d[x].timestamp < d[c].timestamp && Past(d, x) <= Past(d, c)
  {
    assert ValidTx(d, d[c]);
  }

  lemma {:induction false} PastIsOlder(d: Graph, x: Hash, t: Hash)
    requires x in d && t in Past(d, x)
    ensures t in d && (t != x ==> d[t].timestamp < d[x].timestamp)
    decreases d[x].timestamp
  {
    assert ValidTx(d, d[x]);
    if t != x {
      var p :| p in Sources(d[x]) && t in Past(d, p);
      PastIsOlder(d, p, t);
    }
  }

  /** A set that holds `t` and the children and spenders of its members holds all of the
      future of `t`. */
  lemma {:induction false} ClosedHoldsFuture(d: Graph, s: set<Hash>, t: Hash, x: Hash)
    requires t in s && x in d && t in Past(d, x)
    requires forall y, c | y in s && c in d && y in Sources(d[c]) :: c in s
    ensures x in s
    decreases d[x].timestamp
  {
    assert ValidTx(d, d[x]);
    if x != t {
      var p :| p in Sources(d[x]) && t in Past(d, p);
      ClosedHoldsFuture(d, s, t, p);
    }
  }

  // ---- every step keeps the invariant

  lemma {:induction false} ArriveKeeps(d: Graph, e: Graph, v: Voidance, n: Hash, tx: Tx)
    requires Consistent(d, v) && ValidTx(d, tx) && n !in d && e == d[n := tx]
    ensures Consistent(e, Arrive(d, v, n, tx))
    ensures n !in Inherited(d, v, tx)
  {
    NobodyCarries(d, v, n);
    forall p | p in Sources(tx) ensures n !in v[p] { assert !Carries(v, p, n); }
    forall h ensures Spread(e, Arrive(d, v, n, tx), h) { ArriveKeepsSpread(d, e, v, n, tx, h); }
  }

  lemma {:induction false} CarriesAfterArrive(d: Graph, v: Voidance, n: Hash, tx: Tx, x: Hash, h: Hash)
    requires v.Keys == d.Keys && ValidTx(d, tx) && n !in d
    ensures x != n ==> (Carries(Arrive(d, v, n, tx), x, h) <==> Carries(v, x, h))
    ensures h != n ==> (Carries(Arrive(d, v, n, tx), n, h) <==> exists p :: p in Sources(tx) && Carries(v, p, h))
    ensures Carries(Arrive(d, v, n, tx), n, n) <== exists p :: p in Sources(tx) && Carries(v, p, n)
  {
    assert forall p :: p in Sources(tx) && Carries(v, p, h) ==> h in Inherited(d, v, tx);
    assert forall p :: p in Sources(tx) && Carries(v, p, n) ==> n in Inherited(d, v, tx);
  }

  lemma {:induction false} ArriveKeepsSpread(d: Graph, e: Graph, v: Voidance, n: Hash, tx: Tx, h: Hash)
    requires Consistent(d, v) && ValidTx(d, tx) && n !in d && e == d[n := tx]
    ensures Spread(e, Arrive(d, v, n, tx), h)
  {
    hide Inherited, Arrive;
    var w := Arrive(d, v, n, tx);
    assert Spread(d, v, h);
    NobodyCarries(d, v, n);
    forall x { CarriesAfterArrive(d, v, n, tx, x, h); }
    forall t, c | t != h && Carries(w, t, h) && c in e && t in Sources(e[c]) ensures Carries(w, c, h) {
      if c != n { PastStep(d, t, c); }
    }
    forall t | t != h && Carries(w, t, h) ensures Supported(e, w, h, t) {
      if t == n {
        var p :| p in Sources(tx) && Carries(v, p, h);
        assert Carries(w, p, h);
      } else {
        assert Supported(d, v, h, t);
        var p :| p in Sources(d[t]) && (p == h || Carries(v, p, h));
        assert p == h || Carries(w, p, h);
      }
    }
    forall t | Carries(w, t, h) ensures Carries(w, h, h) {
      if t == n && h != n {
        var p :| p in Sources(tx) && Carries(v, p, h);
      }
    }
  }

  /** No descendant of an unvoided transaction carries its hash, so the walk that spreads the
      hash meets no vertex that has it already. */
  lemma {:induction false} NobodyCarries(d: Graph, v: Voidance, t: Hash)
    requires Consistent(d, v) && !Carries(v, t, t)
    ensures forall x :: !Carries(v, x, t)
  {
    assert Spread(d, v, t) && !Carries(v, t, t);
  }

  lemma {:induction false} VoidKeeps(d: Graph, v: Voidance, t: Hash)
    requires Consistent(d, v) && t in d && t !in v[t]
    ensures Consistent(d, Void(d, v, t))
  {
    var w := Void(d, v, t);
    forall h ensures Spread(d, w, h) {
      assert Spread(d, v, h);
      if h == t { VoidSpreads(d, v, t); } else { VoidKeepsOthers(d, v, t, h); }
    }
  }

  lemma {:induction false} VoidSpreads(d: Graph, v: Voidance, t: Hash)
    requires Consistent(d, v) && t in d && t !in v[t]
    ensures Spread(d, Void(d, v, t), t)
  {
    hide Void, Rivals, Shares;
    var w := Void(d, v, t);
    NobodyCarries(d, v, t);
    forall x { CarriesAfterVoid(d, v, t, x, t); }
    forall x, c | x != t && Carries(w, x, t) && c in d && x in Sources(d[c]) ensures Carries(w, c, t) {
      PastStep(d, x, c);
    }
    forall x | x != t && Carries(w, x, t) ensures Supported(d, w, t, x) {
      assert ValidTx(d, d[x]);
      var p :| p in Sources(d[x]) && t in Past(d, p);
      PastStep(d, p, x);
      assert Carries(w, p, t);
    }
  }

  lemma {:induction false} CarriesAfterVoid(d: Graph, v: Voidance, t: Hash, x: Hash, h: Hash)
    requires v.Keys == d.Keys
    ensures Carries(Void(d, v, t), x, h) <==>
      Carries(v, x, h) || (x in d && t in Past(d, x) && (h == t || (h == x && Rivals(d, x) != {})))
  {
  }

  lemma {:induction false} VoidKeepsOthers(d: Graph, v: Voidance, t: Hash, h: Hash)
    requires Consistent(d, v) && h != t && Spread(d, v, h)
    ensures Spread(d, Void(d, v, t), h)
  {
    hide Void, Rivals, Shares, Past;
    var w := Void(d, v, t);
    forall x { CarriesAfterVoid(d, v, t, x, h); }
    forall x | x != h && Carries(w, x, h) ensures Supported(d, w, h, x) {
      assert Supported(d, v, h, x);
      var p :| p in Sources(d[x]) && (p == h || Carries(v, p, h));
      assert p == h || Carries(w, p, h);
    }
  }

  lemma {:induction false} WinKeeps(d: Graph, v: Voidance, t: Hash)
    requires Consistent(d, v)
    ensures Consistent(d, Win(v, t))
    ensures forall x :: !Carries(Win(v, t), x, t)
  {
    var w := Win(v, t);
    forall h ensures Spread(d, w, h) {
      assert Spread(d, v, h);
      assert h != t ==> forall x :: Carries(w, x, h) <==> Carries(v, x, h);
      forall x | x != h && Carries(w, x, h) ensures Supported(d, w, h, x) {
        assert Supported(d, v, h, x);
        var p :| p in Sources(d[x]) && (p == h || Carries(v, p, h));
        assert p == h || Carries(w, p, h);
      }
    }
  }

  /** Every carrier is reached from `h` through carriers only: a walk that stops at the first
      vertex without the hash still finds them all. */
  lemma {:induction false} CarriersAreReached(d: Graph, v: Voidance, h: Hash, s: set<Hash>, x: Hash)
    requires Consistent(d, v) && Carries(v, x, h) && h in s
    requires forall y, c | y in s && c in d && y in Sources(d[c]) && Carries(v, c, h) :: c in s
    ensures x in s
    decreases d[x].timestamp
  {
    if x != h {
      assert Spread(d, v, h) && Supported(d, v, h, x);
      var p :| p in Sources(d[x]) && (p == h || Carries(v, p, h));
      PastStep(d, p, x);
      if p != h { CarriersAreReached(d, v, h, s, p); }
    }
  }

  // ---- what a child inherits

  /** A child or spender carries all that its source carries, except perhaps the source's
      own hash. */
  lemma {:induction false} ChildrenInherit(d: Graph, v: Voidance, t: Hash, c: Hash)
    requires Consistent(d, v) && c in d && t in Sources(d[c])
    ensures t in v && v[t] - {t} <= v[c]
  {
    PastStep(d, t, c);
    forall h | h in v[t] - {t} ensures h in v[c] { assert Spread(d, v, h) && Carries(v, t, h); }
  }

  /** The stronger rule that the design states: a child carries everything. */
  ghost predicate FullyInherited(d: Graph, v: Voidance)
    requires v.Keys == d.Keys
  {
    forall t, c | c in d && t in Sources(d[c]) && t in d :: v[t] <= v[c]
  }

  /** Voiding `t` keeps the stronger rule exactly when no strict descendant of `t` that has
      rivals, and does not carry its own hash yet, has a child or a spender. */
  lemma {:induction false} VoidKeepsFullInheritanceIff(d: Graph, v: Voidance, t: Hash)
    requires Consistent(d, v) && FullyInherited(d, v) && t in d && t !in v[t]
    ensures FullyInherited(d, Void(d, v, t)) <==>
      forall x, c | x in d && x != t && t in Past(d, x) && Rivals(d, x) != {} && x !in v[x] && c in d :: x !in Sources(d[c])
  {
    hide Void, Rivals, Shares, Past, Spread;
    var w := Void(d, v, t);
    forall x, h { CarriesAfterVoid(d, v, t, x, h); }
    if x, c :| x in d && x != t && t in Past(d, x) && Rivals(d, x) != {} && x !in v[x] && c in d && x in Sources(d[c]) {
      NobodyCarries(d, v, x);
      PastStep(d, x, c);
      assert Carries(w, x, x) && !Carries(w, c, x);
    } else {
      forall x, c, h | c in d && x in Sources(d[c]) && x in d && h in w[x] ensures h in w[c] {
        PastStep(d, x, c);
        assert Carries(w, x, h) && v[x] <= v[c];
        assert Carries(w, c, h);
      }
    }
  }

  // ---- a voided transaction with rivals carries its own hash

  ghost predicate OwnHash(d: Graph, v: Voidance)
    requires v.Keys == d.Keys
  {
    forall x | x in d && Rivals(d, x) != {} && v[x] != {} :: x in v[x]
  }

  lemma {:induction false} RivalsAfterArrive(d: Graph, e: Graph, n: Hash, tx: Tx, x: Hash)
    requires n !in d && e == d[n := tx] && x in d
    ensures Rivals(e, x) == Rivals(d, x) + if x in Conflicting(d, tx) then {n} else {}
  {
    assert forall y | y in d :: e[y] == d[y];
    assert Shares(tx, d[x]) <==> Shares(d[x], tx);
  }

  /** An arrival keeps the rule exactly if everything it conflicts with is executed or carries its
      own hash already. */
  lemma {:induction false} ArriveKeepsOwnHashIff(d: Graph, e: Graph, v: Voidance, n: Hash, tx: Tx)
    requires Consistent(d, v) && OwnHash(d, v) && ValidTx(d, tx) && n !in d && e == d[n := tx]
    ensures OwnHash(e, Arrive(d, v, n, tx)) <==> forall x | x in Conflicting(d, tx) :: v[x] == {} || x in v[x]
  {
    hide Spread, Inherited, Rivals, Conflicting;
    var w := Arrive(d, v, n, tx);
    forall x | x in d { RivalsAfterArrive(d, e, n, tx, x); }
    assert Conflicting(d, tx) <= d.Keys by { ConflictsAreKnown(d, tx); }
    assert forall x | x in d :: w[x] == v[x];
    if x :| x in Conflicting(d, tx) && v[x] != {} && x !in v[x] {
      assert n in Rivals(e, x);
    } else {
      forall x | x in e && Rivals(e, x) != {} && w[x] != {} ensures x in w[x] {
        if x == n { OnlyNewRivals(d, e, n, tx); }
      }
    }
  }

  lemma {:induction false} ConflictsAreKnown(d: Graph, tx: Tx)
    ensures Conflicting(d, tx) <= d.Keys
  {
  }

  lemma {:induction false} OnlyNewRivals(d: Graph, e: Graph, n: Hash, tx: Tx)
    requires n !in d && e == d[n := tx]
    ensures Rivals(e, n) == Conflicting(d, tx)
  {
  }

  lemma {:induction false} VoidKeepsOwnHash(d: Graph, v: Voidance, t: Hash)
    requires v.Keys == d.Keys && OwnHash(d, v)
    ensures OwnHash(d, Void(d, v, t))
  {
    hide Rivals, Past;
  }

  /** A win keeps the rule exactly if the winner has no rivals or nothing else voids it. */
  lemma {:induction false} WinKeepsOwnHashIff(d: Graph, v: Voidance, t: Hash)
    requires v.Keys == d.Keys && OwnHash(d, v) && t in d
    ensures OwnHash(d, Win(v, t)) <==> Rivals(d, t) == {} || v[t] <= {t}
  {
    hide Rivals;
    assert t !in Win(v, t)[t];
    assert v[t] <= {t} <==> Win(v, t)[t] == {};
  }

  lemma {:induction false} ArriveKeepsFullInheritance(d: Graph, e: Graph, v: Voidance, n: Hash, tx: Tx)
    requires Consistent(d, v) && FullyInherited(d, v) && ValidTx(d, tx) && n !in d && e == d[n := tx]
    ensures FullyInherited(e, Arrive(d, v, n, tx))
  {
    hide Spread, Conflicting;
    var w := Arrive(d, v, n, tx);
    forall t, c | c in e && t in Sources(e[c]) && t in e ensures w[t] <= w[c] {
      if c == n {
        assert forall h | h in v[t] :: h in Inherited(d, v, tx);
      } else {
        PastStep(d, t, c);
      }
    }
  }

  lemma {:induction false} WinKeepsFullInheritance(d: Graph, v: Voidance, t: Hash)
    requires v.Keys == d.Keys && FullyInherited(d, v)
    ensures FullyInherited(d, Win(v, t))
  {
    forall x, c | c in d && x in Sources(d[c]) && x in d ensures Win(v, t)[x] <= Win(v, t)[c] { assert v[x] <= v[c]; }
  }

  // ---- runs

  datatype State = State(txs: Graph, voidedBy: Voidance)

  datatype Event = Arrived(n: Hash, tx: Tx) | Voided(t: Hash) | Won(t: Hash)

  const START := State(map[], map[])

  ghost predicate Possible(s: State, e: Event) {
    s.voidedBy.Keys == s.txs.Keys
    && match e
       case Arrived(n, tx) => n !in s.txs && ValidTx(s.txs, tx)
       case Voided(t) => t in s.txs && t !in s.voidedBy[t]
       case Won(t) => t in s.txs
  }

  ghost function Next(s: State, e: Event): State
    requires Possible(s, e)
  {
    match e
    case Arrived(n, tx) =>
      GraphGrows(s.txs, s.txs[n := tx], n, tx);
      State(s.txs[n := tx], Arrive(s.txs, s.voidedBy, n, tx))
    case Voided(t) => State(s.txs, Void(s.txs, s.voidedBy, t))
    case Won(t) => State(s.txs, Win(s.voidedBy, t))
  }

  /** `events` is a run: each event is possible in the state that the ones before it lead to. */
  ghost predicate IsRun(s: State, events: seq<Event>)
    decreases |events|
  {
    events == [] || (Possible(s, events[0]) && IsRun(Next(s, events[0]), events[1..]))
  }

  ghost function Run(s: State, events: seq<Event>): State
    requires IsRun(s, events)
    decreases |events|
  {
    if events == [] then s else Run(Next(s, events[0]), events[1..])
  }

  ghost predicate Sound(s: State) { Consistent(s.txs, s.voidedBy) }

  lemma {:induction false} StepIsSound(s: State, e: Event)
    requires Sound(s) && Possible(s, e)
    ensures Sound(Next(s, e))
  {
    hide Consistent, Arrive, Void, Win;
    match e
    case Arrived(n, tx) => GraphGrows(s.txs, s.txs[n := tx], n, tx); ArriveKeeps(s.txs, s.txs[n := tx], s.voidedBy, n, tx);
    case Voided(t) => VoidKeeps(s.txs, s.voidedBy, t);
    case Won(t) => WinKeeps(s.txs, s.voidedBy, t);
  }

  /** After every run, what voids a transaction is spread over its future and nowhere else. */
  lemma {:induction false} RunIsSound(s: State, events: seq<Event>)
    requires Sound(s) && IsRun(s, events)
    ensures Sound(Run(s, events))
    decreases |events|
  {
    hide Sound, Possible, Next;
    if events != [] {
      StepIsSound(s, events[0]);
      RunIsSound(Next(s, events[0]), events[1..]);
    }
  }

  ghost predicate HasInheritance(s: State) { s.voidedBy.Keys == s.txs.Keys && FullyInherited(s.txs, s.voidedBy) }

  ghost predicate HasOwnHashes(s: State) { s.voidedBy.Keys == s.txs.Keys && OwnHash(s.txs, s.voidedBy) }

  /** Nothing strictly behind the voided transaction that has rivals, and does not carry its own
      hash yet, has a child or a spender. */
  ghost predicate SparesInheritance(s: State, e: Event)
    requires Possible(s, e)
  {
    e.Voided? ==>
      forall x, c | x in s.txs && x != e.t && e.t in Past(s.txs, x) && Rivals(s.txs, x) != {} && x !in s.voidedBy[x] && c in s.txs ::
        x !in Sources(s.txs[c])
  }

  /** A new transaction conflicts with what is executed or carries its own hash; a winner has no
      rivals or nothing else voids it. */
  ghost predicate SparesOwnHashes(s: State, e: Event)
    requires Possible(s, e)
  {
    match e
    case Arrived(n, tx) => forall x | x in Conflicting(s.txs, tx) :: s.voidedBy[x] == {} || x in s.voidedBy[x]
    case Voided(t) => true
    case Won(t) => Rivals(s.txs, t) == {} || s.voidedBy[t] <= {t}
  }

  lemma {:induction false} StepKeepsInheritanceIff(s: State, e: Event)
    requires Sound(s) && HasInheritance(s) && Possible(s, e)
    ensures HasInheritance(Next(s, e)) <==> SparesInheritance(s, e)
  {
    hide FullyInherited, Spread, Arrive, Void, Win, Rivals, Past;
    StepIsSound(s, e);
    match e
    case Arrived(n, tx) => GraphGrows(s.txs, s.txs[n := tx], n, tx); ArriveKeepsFullInheritance(s.txs, s.txs[n := tx], s.voidedBy, n, tx);
    case Voided(t) => VoidKeepsFullInheritanceIff(s.txs, s.voidedBy, t);
    case Won(t) => WinKeepsFullInheritance(s.txs, s.voidedBy, t);
  }

  lemma {:induction false} StepKeepsOwnHashesIff(s: State, e: Event)
    requires Sound(s) && HasOwnHashes(s) && Possible(s, e)
    ensures HasOwnHashes(Next(s, e)) <==> SparesOwnHashes(s, e)
  {
    hide OwnHash, Spread, Arrive, Void, Win, Rivals, Conflicting;
    StepIsSound(s, e);
    match e
    case Arrived(n, tx) => GraphGrows(s.txs, s.txs[n := tx], n, tx); ArriveKeepsOwnHashIff(s.txs, s.txs[n := tx], s.voidedBy, n, tx);
    case Voided(t) => VoidKeepsOwnHash(s.txs, s.voidedBy, t);
    case Won(t) => WinKeepsOwnHashIff(s.txs, s.voidedBy, t);
  }

  ghost predicate InheritanceAllAlong(s: State, events: seq<Event>)
    requires IsRun(s, events)
    decreases |events|
  {
    HasInheritance(s) && (events == [] || InheritanceAllAlong(Next(s, events[0]), events[1..]))
  }

  ghost predicate AllSpareInheritance(s: State, events: seq<Event>)
    requires IsRun(s, events)
    decreases |events|
  {
    events == [] || (SparesInheritance(s, events[0]) && AllSpareInheritance(Next(s, events[0]), events[1..]))
  }

  ghost predicate OwnHashesAllAlong(s: State, events: seq<Event>)
    requires IsRun(s, events)
    decreases |events|
  {
    HasOwnHashes(s) && (events == [] || OwnHashesAllAlong(Next(s, events[0]), events[1..]))
  }

  ghost predicate AllSpareOwnHashes(s: State, events: seq<Event>)
    requires IsRun(s, events)
    decreases |events|
  {
    events == [] || (SparesOwnHashes(s, events[0]) && AllSpareOwnHashes(Next(s, events[0]), events[1..]))
  }

  /** All along a run every child carries everything that its source carries exactly if every
      voiding of the run spares it. */
  lemma {:induction false} InheritanceAllAlongIff(s: State, events: seq<Event>)
    requires Sound(s) && HasInheritance(s) && IsRun(s, events)
    ensures InheritanceAllAlong(s, events) <==> AllSpareInheritance(s, events)
    decreases |events|
  {
    hide Sound, HasInheritance, SparesInheritance, Possible, Next;
    if events != [] {
      StepIsSound(s, events[0]);
      StepKeepsInheritanceIff(s, events[0]);
      if HasInheritance(Next(s, events[0])) {
        InheritanceAllAlongIff(Next(s, events[0]), events[1..]);
      } else {
        var rest := events[1..];
        assert !InheritanceAllAlong(Next(s, events[0]), rest);
      }
    }
  }

  /** All along a run every voided transaction with rivals carries its own hash exactly if every
      arrival and every win of the run spares it. */
  lemma {:induction false} OwnHashesAllAlongIff(s: State, events: seq<Event>)
    requires Sound(s) && HasOwnHashes(s) && IsRun(s, events)
    ensures OwnHashesAllAlong(s, events) <==> AllSpareOwnHashes(s, events)
    decreases |events|
  {
    hide Sound, HasOwnHashes, SparesOwnHashes, Possible, Next;
    if events != [] {
      StepIsSound(s, events[0]);
      StepKeepsOwnHashesIff(s, events[0]);
      if HasOwnHashes(Next(s, events[0])) {
        OwnHashesAllAlongIff(Next(s, events[0]), events[1..]);
      } else {
        var rest := events[1..];
        assert !OwnHashesAllAlong(Next(s, events[0]), rest);
      }
    }
  }

  lemma {:induction false} StartIsSound()
    ensures Sound(START) && HasInheritance(START) && HasOwnHashes(START)
  {
  }

  lemma {:induction false} SourceOf(d: Graph, c: Hash, i: nat)
    requires c in d && i < |d[c].parents|
    ensures d[c].parents[i] in Sources(d[c]) && d[c].parents[i] in Past(d, c)
  {
    PastStep(d, d[c].parents[i], c);
  }

  lemma {:induction false} IsRival(d: Graph, x: Hash, h: Hash, i: Spend)
    requires x in d && h in d && x != h && i in d[x].inputs && i in d[h].inputs
    ensures x in Rivals(d, h)
  {
  }

  lemma {:induction false} NoRivals(d: Graph, t: Hash, i: Spend)
    requires t in d && d[t].inputs == [i] && forall x | x in d && x != t :: i !in d[x].inputs
    ensures Rivals(d, t) == {}
  {
  }

  // ---- two runs that break the rules

  lemma {:induction false} OneMoreEvent(s: State, events: seq<Event>, e: Event)
    requires IsRun(s, events) && Possible(Run(s, events), e)
    ensures IsRun(s, events + [e]) && Run(s, events + [e]) == Next(Run(s, events), e)
    decreases |events|
  {
    hide Possible, Next;
    if events == [] {
      assert [] + [e] == [e] && [e][1..] == [];
    } else {
      OneMoreEvent(Next(s, events[0]), events[1..], e);
      assert (events + [e])[1..] == events[1..] + [e];
    }
  }

  /** An arrival that conflicts with nothing takes over `u`. */
  lemma {:induction false} Joins(events: seq<Event>, s: State, n: Hash, tx: Tx, sources: set<Hash>, u: set<Hash>)
    requires IsRun(START, events) && Run(START, events) == s && s.voidedBy.Keys == s.txs.Keys && n !in s.txs && Sources(tx) == sources
    requires forall p | p in sources :: p in s.txs && s.txs[p].timestamp < tx.timestamp && s.voidedBy[p] <= u
    requires (forall h | h in u :: exists p :: p in sources && h in s.voidedBy[p])
    requires forall x, i | x in s.txs && i in tx.inputs :: i !in s.txs[x].inputs
    ensures IsRun(START, events + [Arrived(n, tx)])
    ensures Run(START, events + [Arrived(n, tx)]).txs == s.txs[n := tx] && Run(START, events + [Arrived(n, tx)]).voidedBy == s.voidedBy[n := u]
  {
    hide IsRun, Run, Sources;
    OneMoreEvent(START, events, Arrived(n, tx));
    assert Inherited(s.txs, s.voidedBy, tx) == u;
    assert Conflicting(s.txs, tx) == {};
  }

  /** An arrival that takes over nothing and conflicts with `x`. */
  lemma {:induction false} JoinsInConflict(events: seq<Event>, s: State, n: Hash, tx: Tx, sources: set<Hash>, x: Hash, i: Spend)
    requires IsRun(START, events) && Run(START, events) == s && s.voidedBy.Keys == s.txs.Keys && n !in s.txs && Sources(tx) == sources
    requires forall p | p in sources :: p in s.txs && s.txs[p].timestamp < tx.timestamp && s.voidedBy[p] == {}
    requires x in s.txs && i in tx.inputs && i in s.txs[x].inputs
    ensures IsRun(START, events + [Arrived(n, tx)])
    ensures Run(START, events + [Arrived(n, tx)]).txs == s.txs[n := tx] && Run(START, events + [Arrived(n, tx)]).voidedBy == s.voidedBy[n := {n}]
  {
    hide IsRun, Run, Sources;
    OneMoreEvent(START, events, Arrived(n, tx));
    assert Inherited(s.txs, s.voidedBy, tx) == {} && {} + {n} == {n};
    Conflicts(s.txs, tx, x, i);
  }

  lemma {:induction false} Conflicts(d: Graph, tx: Tx, x: Hash, i: Spend)
    requires x in d && i in d[x].inputs && i in tx.inputs
    ensures x in Conflicting(d, tx)
  {
  }

  const T0 := Tx(0, [], [])
  const T1 := Tx(1, [], [Spend(0, 0)])

  lemma {:induction false} FirstTwo() returns (events: seq<Event>)
    ensures IsRun(START, events) && Run(START, events).txs == map[0 := T0, 1 := T1] && Run(START, events).voidedBy == map[0 := {}, 1 := {}]
  {
    assert Sources(T0) == {} && Sources(T1) == {0};
    hide Sources;
    events := [];
    Joins(events, START, 0, T0, {}, {});
    events := events + [Arrived(0, T0)];
    hide IsRun, Run;
    Joins(events, Run(START, events), 1, T1, {0}, {});
    events := events + [Arrived(1, T1)];
  }

  const T2 := Tx(2, [1], [Spend(0, 1)])
  const T3 := Tx(3, [2], [])
  const T4 := Tx(4, [], [Spend(0, 0), Spend(0, 1)])

  lemma {:induction false} WithChildren() returns (events: seq<Event>)
    ensures IsRun(START, events) && Run(START, events).txs == map[0 := T0, 1 := T1, 2 := T2, 3 := T3]
    ensures Run(START, events).voidedBy == map[0 := {}, 1 := {}, 2 := {}, 3 := {}]
  {
    assert Sources(T2) == {0, 1} && Sources(T3) == {2};
    hide IsRun, Run, Sources;
    events := FirstTwo();
    Joins(events, Run(START, events), 2, T2, {0, 1}, {});
    events := events + [Arrived(2, T2)];
    Joins(events, Run(START, events), 3, T3, {2}, {});
    events := events + [Arrived(3, T3)];
  }

  /** `2` and `3` descend from `1`; `4` arrives in conflict with `1` and `2`, and `1` is voided: `2`
      has a rival and gets its own hash too, which its child `3` does not. */
  lemma {:induction false} FullInheritanceFails() returns (events: seq<Event>)
    ensures IsRun(START, events) && HasInheritance(Run(START, events))
    ensures Run(START, events).txs == map[0 := T0, 1 := T1, 2 := T2, 3 := T3, 4 := T4]
    ensures Run(START, events).voidedBy == map[0 := {}, 1 := {}, 2 := {}, 3 := {}, 4 := {4}]
    ensures IsRun(START, events + [Voided(1)]) && !HasInheritance(Run(START, events + [Voided(1)]))
  {
    assert Sources(T4) == {0};
    hide Next, IsRun, Run, Possible, Sound, HasInheritance, Sources;
    events := WithChildren();
    JoinsInConflict(events, Run(START, events), 4, T4, {0}, 1, Spend(0, 0));
    events := events + [Arrived(4, T4)];
    StartIsSound();
    RunIsSound(START, events);
    VoidingBreaks(Run(START, events));
    OneMoreEvent(START, events, Voided(1));
  }

  lemma {:induction false} VoidingBreaks(s: State)
    requires Sound(s) && s.txs == map[0 := T0, 1 := T1, 2 := T2, 3 := T3, 4 := T4]
    requires s.voidedBy == map[0 := {}, 1 := {}, 2 := {}, 3 := {}, 4 := {4}]
    ensures HasInheritance(s) && Possible(s, Voided(1)) && !HasInheritance(Next(s, Voided(1)))
  {
    hide Next, Rivals, Past, Sound, FullyInherited, Sources;
    assert HasInheritance(s) by { FourIsNoSource(s.txs); OnlyLastVoided(s.txs, s.voidedBy, 4); }
    StepKeepsInheritanceIff(s, Voided(1));
    SourceOf(s.txs, 2, 0);
    SourceOf(s.txs, 3, 0);
    IsRival(s.txs, 4, 2, Spend(0, 1));
  }

  lemma {:induction false} FourIsNoSource(d: Graph)
    requires d == map[0 := T0, 1 := T1, 2 := T2, 3 := T3, 4 := T4]
    ensures forall c | c in d :: 4 !in Sources(d[c])
  {
    assert Sources(T0) == {} && Sources(T1) == {0} && Sources(T2) == {0, 1} && Sources(T3) == {2} && Sources(T4) == {0};
  }

  lemma {:induction false} OnlyLastVoided(d: Graph, v: Voidance, t: Hash)
    requires v.Keys == d.Keys && (forall x | x in d && x != t :: v[x] == {}) && forall c | c in d :: t !in Sources(d[c])
    ensures FullyInherited(d, v)
  {
  }

  const RIVAL := Tx(2, [], [Spend(0, 0)])
  const BELOW := Tx(3, [1], [Spend(0, 1)])
  const LATE := Tx(4, [], [Spend(0, 1)])

  lemma {:induction false} TieIsVoided() returns (events: seq<Event>)
    ensures IsRun(START, events) && Run(START, events).txs == map[0 := T0, 1 := T1, 2 := RIVAL]
    ensures Run(START, events).voidedBy == map[0 := {}, 1 := {1}, 2 := {2}]
  {
    assert Sources(RIVAL) == {0};
    hide Next, IsRun, Run, Sources;
    events := FirstTwo();
    JoinsInConflict(events, Run(START, events), 2, RIVAL, {0}, 1, Spend(0, 0));
    events := events + [Arrived(2, RIVAL)];
    OneVoided(Run(START, events));
    OneMoreEvent(START, events, Voided(1));
    events := events + [Voided(1)];
  }

  lemma {:induction false} OneVoided(s: State)
    requires s.txs == map[0 := T0, 1 := T1, 2 := RIVAL] && s.voidedBy == map[0 := {}, 1 := {}, 2 := {2}]
    ensures Possible(s, Voided(1)) && Next(s, Voided(1)).txs == s.txs && Next(s, Voided(1)).voidedBy == map[0 := {}, 1 := {1}, 2 := {2}]
  {
    hide Rivals, Past, Void, Sources;
    NotBehind(s.txs);
    VoidAt(s.txs, s.voidedBy, 1, 0);
    VoidAt(s.txs, s.voidedBy, 1, 1);
    VoidAt(s.txs, s.voidedBy, 1, 2);
    assert {} + {1} + {1} == {1} && {} + {1} + {} == {1};
  }

  lemma {:induction false} NotBehind(d: Graph)
    requires d == map[0 := T0, 1 := T1, 2 := RIVAL]
    ensures 1 in Past(d, 1) && 1 !in Past(d, 0) && 1 !in Past(d, 2)
  {
    assert Sources(d[0]) == {} && Sources(d[2]) == {0};
  }

  /** `1` and `2` tie and are both voided; `3` arrives below `1`; then `4` arrives and is a rival of
      `3`, which is voided and does not carry its own hash. */
  lemma {:induction false} OwnHashFails() returns (events: seq<Event>)
    ensures IsRun(START, events) && HasOwnHashes(Run(START, events))
    ensures Run(START, events).txs == map[0 := T0, 1 := T1, 2 := RIVAL, 3 := BELOW]
    ensures Run(START, events).voidedBy == map[0 := {}, 1 := {1}, 2 := {2}, 3 := {1}]
    ensures IsRun(START, events + [Arrived(4, LATE)]) && !HasOwnHashes(Run(START, events + [Arrived(4, LATE)]))
  {
    assert Sources(BELOW) == {0, 1};
    hide Next, IsRun, Run, Possible, Sound, HasOwnHashes, Sources;
    events := TieIsVoided();
    assert 1 in {0, 1};
    Joins(events, Run(START, events), 3, BELOW, {0, 1}, {1});
    events := events + [Arrived(3, BELOW)];
    StartIsSound();
    RunIsSound(START, events);
    ArrivalBreaks(Run(START, events));
    OneMoreEvent(START, events, Arrived(4, LATE));
  }

  lemma {:induction false} ArrivalBreaks(s: State)
    requires Sound(s) && s.txs == map[0 := T0, 1 := T1, 2 := RIVAL, 3 := BELOW]
    requires s.voidedBy == map[0 := {}, 1 := {1}, 2 := {2}, 3 := {1}]
    ensures HasOwnHashes(s) && Possible(s, Arrived(4, LATE)) && !HasOwnHashes(Next(s, Arrived(4, LATE)))
  {
    assert Sources(LATE) == {0};
    hide Next, Conflicting, Rivals, Sound, Sources;
    assert HasOwnHashes(s) by { NoRivals(s.txs, 3, Spend(0, 1)); }
    StepKeepsOwnHashesIff(s, Arrived(4, LATE));
    Conflicts(s.txs, LATE, 3, Spend(0, 1));
  }

  // ---- the walks

  /** State of the voiding walk at time `now`: the vertices in `done` have their new
      `voided_by` and are not newer, those that wait are not older. */
  ghost predicate Voiding(d: Graph, v0: Voidance, v: Voidance, t: Hash, done: set<Hash>, waiting: set<Hash>, now: nat) {
    && v0.Keys == v.Keys == d.Keys && done <= d.Keys && waiting <= d.Keys && done !! waiting
    && (t in done || t in waiting)
    && (forall x | x in done + waiting :: t in Past(d, x))
    && (forall x | x in done :: d[x].timestamp <= now) && (forall x | x in waiting :: now <= d[x].timestamp)
    && (forall x, c | x in done && c in d && x in Sources(d[c]) :: c in done || c in waiting)
    && forall x | x in d :: v[x] == if x in done then Void(d, v0, t)[x] else v0[x]
  }

  lemma {:induction false} VoidingStep(d: Graph, v0: Voidance, v: Voidance, t: Hash,
                                       done: set<Hash>, waiting: set<Hash>, now: nat, x: Hash)
    requires Voiding(d, v0, v, t, done, waiting, now) && x in waiting
    requires forall y | y in waiting :: d[x].timestamp <= d[y].timestamp
    ensures v[x] == v0[x]
    ensures Voiding(d, v0, v[x := Void(d, v0, t)[x]], t, done + {x}, waiting - {x} + Targets(d, x), d[x].timestamp)
  {
    hide Void, Past, Sources;
    var waiting' := waiting - {x} + Targets(d, x);
    forall c | c in Targets(d, x)
      ensures t in Past(d, c) && d[x].timestamp < d[c].timestamp
    {
      PastStep(d, x, c);
    }
    assert done + {x} !! waiting';
    assert forall y, c | y in done + {x} && c in d && y in Sources(d[c]) :: c in done + {x} || c in waiting';
  }

  lemma {:induction false} VoidingDone(d: Graph, v0: Voidance, v: Voidance, t: Hash, done: set<Hash>, now: nat)
    requires Voiding(d, v0, v, t, done, {}, now)
    ensures v == Void(d, v0, t)
  {
    hide Void, Past;
    forall x | x in d ensures v[x] == Void(d, v0, t)[x] {
      if t in Past(d, x) { ClosedHoldsFuture(d, done, t, x); } else { VoidAt(d, v0, t, x); }
    }
  }

  /** State of the walk that takes `h` away: done are carriers, and every carrier behind
      something done is done or waits. */
  ghost predicate Clearing(d: Graph, v0: Voidance, v: Voidance, h: Hash, done: set<Hash>, waiting: set<Hash>) {
    && v0.Keys == v.Keys == d.Keys && waiting <= d.Keys && (h in done || h in waiting)
    && (forall x | x in done :: Carries(v0, x, h))
    && (forall x, c | x in done && c in d && x in Sources(d[c]) && Carries(v0, c, h) :: c in done || c in waiting)
    && forall x | x in d :: v[x] == if x in done then v0[x] - {h} else v0[x]
  }

  lemma {:induction false} ClearingStep(d: Graph, v0: Voidance, v: Voidance, h: Hash, done: set<Hash>, waiting: set<Hash>, x: Hash)
    requires Clearing(d, v0, v, h, done, waiting) && x in waiting && Carries(v0, h, h)
    ensures h !in v[x] ==> Clearing(d, v0, v, h, done, waiting - {x})
    ensures h in v[x] ==> x !in done
    ensures h in v[x] ==>
      Clearing(d, v0, v[x := v[x] - {h}], h, done + {x}, waiting - {x} + Targets(d, x))
  {
  }

  lemma {:induction false} ClearingDone(d: Graph, v0: Voidance, v: Voidance, h: Hash, done: set<Hash>)
    requires Consistent(d, v0) && Clearing(d, v0, v, h, done, {})
    ensures v == Win(v0, h)
  {
    forall x | x in d ensures v[x] == v0[x] - {h} {
      if Carries(v0, x, h) { CarriersAreReached(d, v0, h, done, x); }
    }
  }

  lemma {:induction false} EarliestExists(d: map<Hash, Tx>, s: set<Hash>) returns (x: Hash)
    requires s != {} && s <= d.Keys
    ensures x in s && forall y | y in s :: d[x].timestamp <= d[y].timestamp
    decreases s
  {
    var z :| z in s;
    x := z;
    if s != {z} {
      var y := EarliestExists(d, s - {z});
      if d[y].timestamp < d[z].timestamp {
        x := y;
      }
    }
  }

  class TransactionConsensusAlgorithm {
    var txs: Graph
    var voidedBy: Voidance

    ghost predicate Valid()
      reads this
    {
      Consistent(txs, voidedBy)
    }

    constructor ()
      ensures Valid() && txs == map[]
    {
      txs, voidedBy := map[], map[];
    }

    /** A new transaction takes over what voids its parents and inputs, and its own hash if it
        has rivals. */
    method UpdateVoidedInfo(n: Hash, tx: Tx)
      requires Valid() && n !in txs && ValidTx(txs, tx)
      modifies this
      ensures Valid() && txs == old(txs)[n := tx]
      ensures voidedBy == Arrive(old(txs), old(voidedBy), n, tx)
    {
      hide Spread, Inherited, Shares;
      GraphGrows(txs, txs[n := tx], n, tx);
      ArriveKeeps(txs, txs[n := tx], voidedBy, n, tx);
      var union := UnionOfSources(tx);
      assert n !in union;
      if Conflicting(txs, tx) != {} {
        union := union + {n};
      }
      voidedBy := voidedBy[n := union];
      txs := txs[n := tx];
    }

    method UnionOfSources(tx: Tx) returns (union: set<Hash>)
      requires voidedBy.Keys == txs.Keys && ValidTx(txs, tx)
      ensures union == Inherited(txs, voidedBy, tx)
    {
      union := {};
      for i := 0 to |tx.parents|
        invariant forall h :: h in union <==> exists j :: 0 <= j < i && h in voidedBy[tx.parents[j]]
      {
        union := union + voidedBy[tx.parents[i]];
      }
      ghost var fromParents := union;
      for i := 0 to |tx.inputs|
        invariant forall h :: h in union <==> h in fromParents || exists j :: 0 <= j < i && h in voidedBy[tx.inputs[j].txId]
      {
        assert tx.inputs[i] in tx.inputs;
        union := union + voidedBy[tx.inputs[i].txId];
      }
      IsInherited(txs, voidedBy, tx, fromParents, union);
    }

    /** Voids a transaction that has lost to a rival. `ok` is the assertion that a transaction that
        is voided already carries its own hash. */
    method MarkAsVoided(t: Hash) returns (ok: bool)
      requires Valid() && t in txs && Rivals(txs, t) != {}
      modifies this`voidedBy
      ensures Valid()
      ensures voidedBy == if old(voidedBy)[t] == {} then Void(txs, old(voidedBy), t) else old(voidedBy)
      ensures ok <==> old(voidedBy)[t] == {} || t in old(voidedBy)[t]
      ensures old(OwnHash(txs, voidedBy)) ==> ok && OwnHash(txs, voidedBy)
    {
      hide Rivals, Spread;
      if voidedBy[t] != {} {
        return t in voidedBy[t];
      }
      ghost var before := voidedBy;
      var done := AddVoidedBy(t);
      if OwnHash(txs, before) {
        VoidKeepsOwnHash(txs, before, t);
      }
      return true;
    }

    /** A transaction that has rivals wins over them. */
    method MarkAsWinner(t: Hash)
      requires Valid() && t in txs && Rivals(txs, t) != {}
      modifies this`voidedBy
      ensures Valid() && voidedBy == Win(old(voidedBy), t)
    {
      var done := RemoveVoidedBy(t);
    }

    method AddVoidedBy(t: Hash) returns (added: bool)
      requires Valid() && t in txs
      modifies this`voidedBy
      ensures Valid() && added == (t !in old(voidedBy)[t])
      ensures voidedBy == if added then Void(txs, old(voidedBy), t) else old(voidedBy)
    {
      hide Void, Spread, Past;
      if t in voidedBy[t] {
        return false;
      }
      ghost var v0 := voidedBy;
      ghost var done: set<Hash>, now := {}, 0;
      NobodyCarries(txs, v0, t);
      SelfInPast(txs, t);
      var toVisit := {t};
      while toVisit != {}
        invariant Voiding(txs, v0, voidedBy, t, done, toVisit, now)
        decreases txs.Keys - done
      {
        ghost var earliest := EarliestExists(txs, toVisit);
        var tx :| tx in toVisit && forall y | y in toVisit :: txs[tx].timestamp <= txs[y].timestamp;
        VoidingStep(txs, v0, voidedBy, t, done, toVisit, now, tx);
        assert t !in voidedBy[tx] by { assert !Carries(v0, tx, t); }
        VoidAt(txs, v0, t, tx);
        voidedBy := voidedBy[tx := voidedBy[tx] + {t} + if Rivals(txs, tx) != {} then {tx} else {}];
        done, now := done + {tx}, txs[tx].timestamp;
        toVisit := toVisit - {tx} + Targets(txs, tx);
      }
      VoidingDone(txs, v0, voidedBy, t, done, now);
      VoidKeeps(txs, v0, t);
      return true;
    }

    /** A transaction wins over its rivals: nothing carries its hash any more. */
    method RemoveVoidedBy(t: Hash) returns (removed: bool)
      requires Valid() && t in txs
      modifies this`voidedBy
      ensures Valid() && removed == (t in old(voidedBy)[t])
      ensures voidedBy == Win(old(voidedBy), t)
    {
      hide Win, Spread;
      WinKeeps(txs, voidedBy, t);
      if t !in voidedBy[t] {
        NothingToWin(txs, voidedBy, t);
        return false;
      }
      ghost var v0 := voidedBy;
      ghost var done: set<Hash> := {};
      var toVisit := {t};
      while toVisit != {}
        invariant Clearing(txs, v0, voidedBy, t, done, toVisit)
        decreases txs.Keys - done, toVisit
      {
        var tx :| tx in toVisit;
        ClearingStep(txs, v0, voidedBy, t, done, toVisit, tx);
        toVisit := toVisit - {tx};
        if t !in voidedBy[tx] {
          continue;
        }
        voidedBy := voidedBy[tx := voidedBy[tx] - {t}];
        done := done + {tx};
        toVisit := toVisit + Targets(txs, tx);
      }
      ClearingDone(txs, v0, voidedBy, t, done);
      return true;
    }
  }

  lemma {:induction false} GraphGrows(d: Graph, e: map<Hash, Tx>, n: Hash, tx: Tx)
    requires n !in d && ValidTx(d, tx) && e == d[n := tx]
    ensures forall h | h in e :: ValidTx(e, e[h])
  {
    forall h | h in e ensures ValidTx(e, e[h]) { assert h != n ==> ValidTx(d, d[h]); }
  }

  lemma {:induction false} SelfInPast(d: Graph, t: Hash)
    requires t in d
    ensures t in Past(d, t)
  {
  }

  lemma {:induction false} VoidAt(d: Graph, v: Voidance, t: Hash, x: Hash)
    requires v.Keys == d.Keys && x in d
    ensures t in Past(d, x) ==> Void(d, v, t)[x] == v[x] + {t} + if Rivals(d, x) != {} then {x} else {}
    ensures t !in Past(d, x) ==> Void(d, v, t)[x] == v[x]
  {
  }

  lemma {:induction false} NothingToWin(d: Graph, v: Voidance, t: Hash)
    requires Consistent(d, v) && !Carries(v, t, t)
    ensures Win(v, t) == v
  {
    NobodyCarries(d, v, t);
    forall x | x in v ensures v[x] - {t} == v[x] { assert !Carries(v, x, t); }
  }

  lemma {:induction false} IsInherited(d: Graph, v: Voidance, tx: Tx, a: set<Hash>, u: set<Hash>)
    requires v.Keys == d.Keys && ValidTx(d, tx)
    requires forall h :: h in a <==> exists j :: 0 <= j < |tx.parents| && h in v[tx.parents[j]]
    requires forall h :: h in u <==> h in a || exists j :: 0 <= j < |tx.inputs| && h in v[tx.inputs[j].txId]
    ensures u == Inherited(d, v, tx)
  {
    forall h | h in Inherited(d, v, tx) ensures h in u {
      var p :| p in Sources(tx) && h in v[p];
      if p in tx.parents {
        var j :| 0 <= j < |tx.parents| && tx.parents[j] == p;
      } else {
        var i :| i in tx.inputs && i.txId == p;
        var j :| 0 <= j < |tx.inputs| && tx.inputs[j] == i;
      }
    }
    forall h | h in u ensures h in Inherited(d, v, tx) {
      if h in a {
        var j :| 0 <= j < |tx.parents| && h in v[tx.parents[j]];
        assert tx.parents[j] in Sources(tx);
      } else {
        var j :| 0 <= j < |tx.inputs| && h in v[tx.inputs[j].txId];
        assert tx.inputs[j] in tx.inputs;
        assert tx.inputs[j].txId in Sources(tx);
      }
    }
  }
}
