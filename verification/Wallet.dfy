/** The wallet's books: its outputs are unspent, set aside for a transaction being prepared, or
    spent, and follow the transactions that arrive, are voided and win conflicts. */
module Wallet {
  import opened Collections
  import opened Sums

  type Hash = nat
  type Key = (Hash, nat)
  type Token = nat

  /** `owned`: the script pays to an address of this wallet. */
  datatype Output = Output(token: Token, value: nat, owned: bool, isAuthority: bool, timelock: Option<nat>)

  datatype Tx = Tx(timestamp: nat, inputs: seq<Key>, outputs: seq<Output>)

  type Store = map<Hash, Tx>

  predicate Exists(store: Store, k: Key) { k.0 in store && k.1 < |store[k.0].outputs| }

  function At(store: Store, k: Key): Output
    requires Exists(store, k)
  {
    store[k.0].outputs[k.1]
  }

  predicate Owned(store: Store, k: Key) { Exists(store, k) && At(store, k).owned }

  predicate ValidStore(store: Store) {
    forall h | h in store ::
      && Distinct(store[h].inputs)
      && forall k | k in store[h].inputs :: Exists(store, k) && k.0 != h
  }

  // ---- what the books say of one output

  /** `spent` lists the transactions that spend it; an empty list may be left behind. */
  datatype View = View(unspent: bool, maybe: bool, spent: Option<seq<Hash>>)
  {
    function List(): seq<Hash> { if spent.Some? then spent.value else [] }
  }

  predicate Exclusive(v: View) { !(v.unspent && v.maybe) && (v.List() != [] ==> !v.unspent && !v.maybe) }

  predicate Blank(v: View) { !v.unspent && !v.maybe && v.List() == [] }

  function Received(v: View): View { v.(unspent := true) }

  function SpentBy(v: View, t: Hash): View {
    if v.unspent then View(false, v.maybe, Some(v.List() + [t]))
    else if v.maybe || v.spent.Some? then View(false, false, Some(v.List() + [t]))
    else v
  }

  function OutputVoided(v: View): View {
    if v.unspent then v.(unspent := false) else if v.maybe then v.(maybe := false) else v.(spent := None)
  }

  function InputVoided(v: View, t: Hash): View {
    if t !in v.List() then v
    else View(v.unspent || Removed(v.List(), t) == [], v.maybe, Some(Removed(v.List(), t)))
  }

  function OutputWon(v: View): View {
    if v.unspent || v.maybe || v.List() != [] then v else v.(unspent := true)
  }

  function InputWon(v: View, t: Hash): View {
    if v.unspent then View(false, v.maybe, Some(v.List() + [t]))
    else if v.maybe then View(false, false, Some(v.List() + [t]))
    else if t in v.List() then v
    else View(false, false, Some(v.List() + [t]))
  }

  function SetAside(v: View): View { if v.unspent then View(false, true, v.spent) else v }

  function TakenBack(v: View): View { if v.maybe then View(true, false, v.spent) else v }

  // ---- what they should say

  /** The transactions seen and not voided that spend the output. */
  function Spenders(store: Store, seen: set<Hash>, voided: set<Hash>, k: Key): set<Hash> {
    set t | t in seen && t !in voided && t in store && k in store[t].inputs
  }

  /** An output of a transaction that counts is available exactly if no transaction that counts
      spends it, and otherwise those that do are listed; other outputs are nowhere. */
  predicate IsRight(counts: bool, spenders: set<Hash>, v: View) {
    if counts then
      && Elems(v.List()) == spenders && Distinct(v.List()) && !(v.unspent && v.maybe)
      && (v.unspent || v.maybe <==> spenders == {})
    else Blank(v)
  }

  predicate Counts(seen: set<Hash>, voided: set<Hash>, k: Key) { k.0 in seen && k.0 !in voided }

  lemma {:induction false} RemovedIs(s: seq<Hash>, t: Hash)
    requires Distinct(s) && t in s
    ensures Distinct(Removed(s, t)) && Elems(Removed(s, t)) == Elems(s) - {t}
    decreases |s|
  {
    var tail := s[1..];
    assert s == [s[0]] + tail;
    assert forall i | 0 <= i < |tail| :: tail[i] == s[i + 1];
    if s[0] != t {
      RemovedIs(tail, t);
      var w := Removed(tail, t);
      forall i | 0 <= i < |w|
        ensures w[i] in Elems(tail)
      {
        assert w[i] in Elems(w);
      }
      assert Elems([s[0]] + w) == {s[0]} + Elems(w);
    }
  }

  lemma {:induction false} RightIsExclusive(counts: bool, spenders: set<Hash>, v: View)
    requires IsRight(counts, spenders, v)
    ensures Exclusive(v)
  {
    assert v.List() != [] ==> v.List()[0] in Elems(v.List());
  }

  lemma {:induction false} RightMoves(counts: bool, spenders: set<Hash>, v: View, t: Hash)
    requires IsRight(counts, spenders, v)
    ensures counts && t !in spenders ==> IsRight(counts, spenders + {t}, SpentBy(v, t))
    ensures !counts ==> (IsRight(counts, spenders, SpentBy(v, t)) <==> v.spent.None?)
    ensures IsRight(false, spenders, OutputVoided(v)) && IsRight(counts, spenders - {t}, InputVoided(v, t))
    ensures counts ==> IsRight(true, spenders + {t}, InputWon(v, t))
    ensures counts || spenders == {} ==> IsRight(true, spenders, OutputWon(v))
    ensures IsRight(counts, spenders, SetAside(v)) && IsRight(counts, spenders, TakenBack(v))
  {
    var list := v.List();
    RightIsExclusive(counts, spenders, v);
    assert counts && list == [] ==> spenders == {};
    assert counts && list != [] ==> list[0] in spenders;
    assert Elems(list + [t]) == Elems(list) + {t};
    assert t !in list ==> Distinct(list + [t]);
    if t in list {
      RemovedIs(list, t);
      assert Removed(list, t) == [] <==> Elems(Removed(list, t)) == {} by {
        assert Removed(list, t) != [] ==> Removed(list, t)[0] in Elems(Removed(list, t));
      }
    } else {
      assert counts ==> spenders - {t} == spenders;
    }
    assert t in spenders ==> spenders + {t} == spenders;
  }

  // ---- the books, and what events do to them

  datatype Books = Books(unspent: set<Key>, maybe: map<Key, nat>, spent: map<Key, seq<Hash>>)
  {
    function At(k: Key): View { View(k in unspent, k in maybe, if k in spent then Some(spent[k]) else None) }
  }

  ghost predicate AllRight(store: Store, seen: set<Hash>, voided: set<Hash>, b: Books) {
    && voided <= seen <= store.Keys
    && forall k: Key ::
         if Owned(store, k) then IsRight(Counts(seen, voided, k), Spenders(store, seen, voided, k), b.At(k)) else Blank(b.At(k))
  }

  function AfterNew(store: Store, t: Hash, k: Key, v: View): View
    requires t in store
  {
    if !Owned(store, k) then v
    else if k.0 == t then Received(v)
    else if k in store[t].inputs then SpentBy(v, t)
    else v
  }

  function AfterVoided(store: Store, t: Hash, k: Key, v: View): View
    requires t in store
  {
    if !Owned(store, k) then v
    else if k.0 == t then OutputVoided(v)
    else if k in store[t].inputs then InputVoided(v, t)
    else v
  }

  function AfterWon(store: Store, t: Hash, k: Key, v: View): View
    requires t in store
  {
    if !Owned(store, k) then v
    else if k.0 == t then OutputWon(v)
    else if k in store[t].inputs then InputWon(v, t)
    else v
  }

  /** A transaction is seen once, after those it spends and before those that spend it. */
  ghost predicate IsNew(store: Store, seen: set<Hash>, t: Hash) {
    && t in store && t !in seen
    && (forall k | k in store[t].inputs :: k.0 in seen)
    && forall u, k: Key | u in seen && u in store && k in store[u].inputs :: k.0 != t
  }

  /** For no output of a voided transaction that `t` spends is an empty list of spenders left. */
  ghost predicate NoLeftovers(store: Store, voided: set<Hash>, b: Books, t: Hash)
    requires t in store
  {
    forall k | k in store[t].inputs && Owned(store, k) && k.0 in voided :: b.At(k).spent.None?
  }

  /** A new transaction leaves the books right exactly if it meets no leftover list. */
  lemma {:induction false} NewKeepsRightIff(store: Store, seen: set<Hash>, voided: set<Hash>, b: Books, c: Books, t: Hash)
    requires ValidStore(store) && AllRight(store, seen, voided, b) && IsNew(store, seen, t)
    requires forall k: Key :: c.At(k) == AfterNew(store, t, k, b.At(k))
    ensures AllRight(store, seen + {t}, voided, c) <==> NoLeftovers(store, voided, b, t)
  {
    hide IsRight, SpentBy;
    forall k: Key | Owned(store, k)
      ensures IsRight(Counts(seen + {t}, voided, k), Spenders(store, seen + {t}, voided, k), c.At(k))
         <==> (k in store[t].inputs && k.0 in voided ==> b.At(k).spent.None?)
    {
      NewAt(store, seen, voided, b.At(k), t, k);
    }
  }

  lemma {:induction false} NewAt(store: Store, seen: set<Hash>, voided: set<Hash>, v: View, t: Hash, k: Key)
    requires ValidStore(store) && voided <= seen && IsNew(store, seen, t) && Owned(store, k)
    requires IsRight(Counts(seen, voided, k), Spenders(store, seen, voided, k), v)
    ensures IsRight(Counts(seen + {t}, voided, k), Spenders(store, seen + {t}, voided, k), AfterNew(store, t, k, v))
       <==> (k in store[t].inputs && k.0 in voided ==> v.spent.None?)
  {
    var before, after := Spenders(store, seen, voided, k), Spenders(store, seen + {t}, voided, k);
    if k.0 == t {
      assert before == {} && after == {};
    } else if k in store[t].inputs {
      assert after == before + {t};
      RightMoves(Counts(seen, voided, k), before, v, t);
    } else {
      assert after == before;
    }
  }

  lemma {:induction false} VoidedKeepsRight(store: Store, seen: set<Hash>, voided: set<Hash>, b: Books, c: Books, t: Hash)
    requires ValidStore(store) && AllRight(store, seen, voided, b) && t in seen
    requires forall k: Key :: c.At(k) == AfterVoided(store, t, k, b.At(k))
    ensures AllRight(store, seen, voided + {t}, c)
  {
    hide IsRight, InputVoided, OutputVoided;
    forall k: Key | Owned(store, k)
      ensures IsRight(Counts(seen, voided + {t}, k), Spenders(store, seen, voided + {t}, k), c.At(k))
    {
      VoidedAt(store, seen, voided, b.At(k), t, k);
    }
  }

  lemma {:induction false} VoidedAt(store: Store, seen: set<Hash>, voided: set<Hash>, v: View, t: Hash, k: Key)
    requires ValidStore(store) && t in seen && t in store && Owned(store, k)
    requires IsRight(Counts(seen, voided, k), Spenders(store, seen, voided, k), v)
    ensures IsRight(Counts(seen, voided + {t}, k), Spenders(store, seen, voided + {t}, k), AfterVoided(store, t, k, v))
  {
    var before, after := Spenders(store, seen, voided, k), Spenders(store, seen, voided + {t}, k);
    assert after == before - {t};
    assert k !in store[t].inputs ==> after == before;
    RightMoves(Counts(seen, voided, k), before, v, t);
  }

  /** What the winner spends counts, and if it was voided, nothing that counts spends it. */
  ghost predicate MayWin(store: Store, seen: set<Hash>, voided: set<Hash>, t: Hash)
    requires t in store
  {
    && (forall k | k in store[t].inputs && Owned(store, k) :: Counts(seen, voided, k))
    && (t in voided ==> forall k | Owned(store, k) && k.0 == t :: Spenders(store, seen, voided, k) == {})
  }

  /** A winner leaves the books right exactly if what it spends counts and, in case it was voided,
      nothing that counts spends it yet. */
  lemma {:induction false} WonKeepsRightIff(store: Store, seen: set<Hash>, voided: set<Hash>, b: Books, c: Books, t: Hash)
    requires ValidStore(store) && AllRight(store, seen, voided, b) && t in seen
    requires forall k: Key :: c.At(k) == AfterWon(store, t, k, b.At(k))
    ensures AllRight(store, seen, voided - {t}, c) <==> MayWin(store, seen, voided, t)
  {
    hide IsRight, InputWon, OutputWon, Spenders;
    forall k: Key | Owned(store, k)
      ensures IsRight(Counts(seen, voided - {t}, k), Spenders(store, seen, voided - {t}, k), c.At(k))
         <==> (k in store[t].inputs ==> Counts(seen, voided, k)) && (k.0 == t && t in voided ==> Spenders(store, seen, voided, k) == {})
    {
      WonAt(store, seen, voided, b.At(k), t, k);
    }
  }

  lemma {:induction false} WonAt(store: Store, seen: set<Hash>, voided: set<Hash>, v: View, t: Hash, k: Key)
    requires ValidStore(store) && voided <= seen && t in seen && t in store && Owned(store, k)
    requires IsRight(Counts(seen, voided, k), Spenders(store, seen, voided, k), v)
    ensures IsRight(Counts(seen, voided - {t}, k), Spenders(store, seen, voided - {t}, k), AfterWon(store, t, k, v))
       <==> (k in store[t].inputs ==> Counts(seen, voided, k)) && (k.0 == t && t in voided ==> Spenders(store, seen, voided, k) == {})
  {
    var before, after := Spenders(store, seen, voided, k), Spenders(store, seen, voided - {t}, k);
    assert k in store[t].inputs ==> after == before + {t};
    assert k !in store[t].inputs ==> after == before;
    RightMoves(Counts(seen, voided, k), before, v, t);
  }

  lemma {:induction false} MovedKeepsRight(store: Store, seen: set<Hash>, voided: set<Hash>, b: Books, c: Books)
    requires AllRight(store, seen, voided, b)
    requires forall k: Key :: c.At(k) == b.At(k) || c.At(k) == SetAside(b.At(k)) || c.At(k) == TakenBack(b.At(k))
    ensures AllRight(store, seen, voided, c)
  {
    forall k: Key
      ensures if Owned(store, k) then IsRight(Counts(seen, voided, k), Spenders(store, seen, voided, k), c.At(k)) else Blank(c.At(k))
    {
      if Owned(store, k) {
        RightMoves(Counts(seen, voided, k), Spenders(store, seen, voided, k), b.At(k), 0);
      }
    }
  }

  // ---- runs

  datatype State = State(seen: set<Hash>, voided: set<Hash>, books: Books)

  /** `Moved`: outputs are set aside for a transaction being prepared, or taken back. */
  datatype Event = Arrived(t: Hash) | Voided(t: Hash) | Won(t: Hash) | Moved

  datatype Step = Step(before: State, event: Event, after: State)

  const START := State({}, {}, Books({}, map[], map[]))

  ghost predicate IsStep(store: Store, x: Step) {
    var s, n := x.before, x.after;
    match x.event
    case Arrived(t) =>
      && IsNew(store, s.seen, t) && n.seen == s.seen + {t} && n.voided == s.voided
      && forall k: Key :: n.books.At(k) == AfterNew(store, t, k, s.books.At(k))
    case Voided(t) =>
      && t in s.seen && t in store && n.seen == s.seen && n.voided == s.voided + {t}
      && forall k: Key :: n.books.At(k) == AfterVoided(store, t, k, s.books.At(k))
    case Won(t) =>
      && t in s.seen && t in store && n.seen == s.seen && n.voided == s.voided - {t}
      && forall k: Key :: n.books.At(k) == AfterWon(store, t, k, s.books.At(k))
    case Moved =>
      && n.seen == s.seen && n.voided == s.voided
      && forall k: Key :: n.books.At(k) in {s.books.At(k), SetAside(s.books.At(k)), TakenBack(s.books.At(k))}
  }

  /** Any interleaving of events, each transaction first seen once and after those it spends. */
  ghost predicate IsRun(store: Store, run: seq<Step>) {
    && (forall x | x in run :: IsStep(store, x))
    && (run != [] ==> run[0].before == START)
    && forall i | 0 < i < |run| :: run[i].before == run[i - 1].after
  }

  function After(run: seq<Step>): State { if run == [] then START else run[|run| - 1].after }

  lemma {:induction false} RunSplits(store: Store, run: seq<Step>)
    requires IsRun(store, run) && run != []
    ensures var front, last := run[..|run| - 1], run[|run| - 1];
            IsRun(store, front) && IsStep(store, last) && last.before == After(front)
  {
    var front := run[..|run| - 1];
    assert forall x | x in front :: x in run;
    assert front != [] ==> front[0] == run[0] && front[|front| - 1] == run[|run| - 2];
  }

  // ---- an output is in one place at most

  /** What is seen was preceded by what it spends; an output is in one place at most, and in none
      before its transaction is seen. */
  ghost predicate Orderly(store: Store, s: State) {
    && s.seen <= store.Keys && (forall t, k: Key | t in s.seen && k in store[t].inputs :: k.0 in s.seen)
    && forall k: Key :: Exclusive(s.books.At(k)) && (k.0 !in s.seen || !Owned(store, k) ==> Blank(s.books.At(k)))
  }

  lemma {:induction false} OrderlyAt(v: View, t: Hash)
    requires Exclusive(v)
    ensures Exclusive(SpentBy(v, t)) && Exclusive(OutputVoided(v)) && Exclusive(InputVoided(v, t))
    ensures Exclusive(OutputWon(v)) && Exclusive(InputWon(v, t)) && Exclusive(SetAside(v)) && Exclusive(TakenBack(v))
    ensures Blank(v) ==> Exclusive(Received(v)) && SetAside(v) == v == TakenBack(v)
  {
  }

  lemma {:induction false} StepIsOrderly(store: Store, x: Step)
    requires ValidStore(store) && Orderly(store, x.before) && IsStep(store, x)
    ensures Orderly(store, x.after)
  {
    hide Received, SpentBy, OutputVoided, InputVoided, OutputWon, InputWon, SetAside, TakenBack, Exclusive, Blank, ValidStore, Owned;
    forall k: Key
      ensures Exclusive(x.after.books.At(k)) && (k.0 !in x.after.seen || !Owned(store, k) ==> Blank(x.after.books.At(k)))
    {
      OrderlyAt(x.before.books.At(k), if x.event.Moved? then 0 else x.event.t);
    }
  }

  /** Over every interleaving, each output is in at most one of unspent, maybe-spent and a
      non-empty spent list, and in none of them if it is not owned or not seen. */
  lemma {:induction false} NeverInTwoPlaces(store: Store, run: seq<Step>, k: Key)
    requires ValidStore(store) && IsRun(store, run)
    ensures var s := After(run);
            && Orderly(store, s) && Exclusive(s.books.At(k))
            && (k.0 !in s.seen || !Owned(store, k) ==> Blank(s.books.At(k)))
    decreases |run|
  {
    if run != [] {
      RunSplits(store, run);
      NeverInTwoPlaces(store, run[..|run| - 1], k);
      StepIsOrderly(store, run[|run| - 1]);
    }
  }

  // ---- when the books are right

  ghost predicate RightIn(store: Store, s: State) { AllRight(store, s.seen, s.voided, s.books) }

  /** An arrival meets no leftover list; a winner may win. */
  ghost predicate IsHarmless(store: Store, x: Step)
    requires IsStep(store, x)
  {
    match x.event
    case Arrived(t) => NoLeftovers(store, x.before.voided, x.before.books, t)
    case Won(t) => MayWin(store, x.before.seen, x.before.voided, t)
    case _ => true
  }

  lemma {:induction false} StepKeepsRightIff(store: Store, x: Step)
    requires ValidStore(store) && RightIn(store, x.before) && IsStep(store, x)
    ensures RightIn(store, x.after) <==> IsHarmless(store, x)
  {
    hide AllRight, AfterNew, AfterVoided, AfterWon, SetAside, TakenBack, NoLeftovers, MayWin, ValidStore;
    var s, n := x.before, x.after;
    match x.event
    case Arrived(t) => NewKeepsRightIff(store, s.seen, s.voided, s.books, n.books, t);
    case Voided(t) => VoidedKeepsRight(store, s.seen, s.voided, s.books, n.books, t);
    case Won(t) => WonKeepsRightIff(store, s.seen, s.voided, s.books, n.books, t);
    case Moved => MovedKeepsRight(store, s.seen, s.voided, s.books, n.books);
  }

  /** The books are right all along a run exactly if every event of it is harmless. */
  lemma {:induction false} BooksAreRightIff(store: Store, run: seq<Step>)
    requires ValidStore(store) && IsRun(store, run)
    ensures (forall x | x in run :: RightIn(store, x.after)) <==> forall x | x in run :: IsHarmless(store, x)
    ensures (forall x | x in run :: IsHarmless(store, x)) ==> RightIn(store, After(run))
    decreases |run|
  {
    hide RightIn, IsHarmless, IsStep, ValidStore;
    if run == [] {
      StartIsRight(store);
    } else {
      var front, last := run[..|run| - 1], run[|run| - 1];
      assert run == front + [last];
      RunSplits(store, run);
      BooksAreRightIff(store, front);
      if forall x | x in front :: IsHarmless(store, x) {
        StepKeepsRightIff(store, last);
      }
    }
  }

  lemma {:induction false} StartIsRight(store: Store)
    ensures RightIn(store, START)
  {
  }

  /** What right books say: an output is available, set aside or not, exactly if it is owned, its
      transaction counts, and no transaction that counts spends it. */
  lemma {:induction false} AvailableIff(store: Store, s: State, k: Key)
    requires RightIn(store, s)
    ensures k in s.books.unspent || k in s.books.maybe
       <==> Owned(store, k) && Counts(s.seen, s.voided, k) && Spenders(store, s.seen, s.voided, k) == {}
    ensures Owned(store, k) && Counts(s.seen, s.voided, k) ==> Elems(s.books.At(k).List()) == Spenders(store, s.seen, s.voided, k)
  {
  }

  // ---- two runs that mislead the books

  /** Transaction `1` pays the wallet; `2` and `3` both spend its output. */
  const EXAMPLE: Store := map[
    1 := Tx(1, [], [Output(0, 10, true, false, None)]),
    2 := Tx(2, [(1, 0)], []),
    3 := Tx(3, [(1, 0)], [])]

  function ExampleState(seen: set<Hash>, voided: set<Hash>, unspent: bool, spent: Option<seq<Hash>>): State {
    State(seen, voided, Books(if unspent then {(1, 0)} else {}, map[], if spent.Some? then map[(1, 0) := spent.value] else map[]))
  }

  lemma {:induction false} ExampleOwns(k: Key)
    ensures ValidStore(EXAMPLE) && (Owned(EXAMPLE, k) <==> k == (1, 0))
  {
  }

  lemma {:induction false} ExampleStep(x: Step, seen: set<Hash>, voided: set<Hash>, unspent: bool, spent: Option<seq<Hash>>,
                                       seen': set<Hash>, voided': set<Hash>, unspent': bool, spent': Option<seq<Hash>>)
    requires !x.event.Moved? && x.event.t in EXAMPLE
    requires x.before == ExampleState(seen, voided, unspent, spent) && x.after == ExampleState(seen', voided', unspent', spent')
    requires var v, w, t := View(unspent, false, spent), View(unspent', false, spent'), x.event.t;
             match x.event
             case Arrived(_) => IsNew(EXAMPLE, seen, t) && seen' == seen + {t} && voided' == voided && w == AfterNew(EXAMPLE, t, (1, 0), v)
             case Voided(_) => t in seen && seen' == seen && voided' == voided + {t} && w == AfterVoided(EXAMPLE, t, (1, 0), v)
             case Won(_) => t in seen && seen' == seen && voided' == voided - {t} && w == AfterWon(EXAMPLE, t, (1, 0), v)
             case Moved => true
    ensures IsStep(EXAMPLE, x)
  {
    forall k: Key | k != (1, 0)
      ensures x.before.books.At(k) == x.after.books.At(k) == View(false, false, None) && !Owned(EXAMPLE, k)
    {
      ExampleOwns(k);
    }
  }

  lemma {:induction false} ExampleViews(t: Hash)
    ensures SpentBy(View(true, false, None), t) == View(false, false, Some([t])) == SpentBy(View(false, false, Some([])), t)
    ensures InputVoided(View(false, false, Some([t])), t) == View(true, false, Some([]))
    ensures InputWon(View(false, false, None), t) == View(false, false, Some([t]))
    ensures SpentBy(View(false, false, None), t) == View(false, false, None)
  {
    assert [] + [t] == [t] && Removed([t], t) == [];
  }

  /** An output is spent and freed again, its transaction is voided, and a new spender comes and is
      voided too: the list of spenders that was left behind makes the output available, although
      its transaction is voided. */
  lemma {:induction false} LeftoverMisleads() returns (run: seq<Step>)
    ensures IsRun(EXAMPLE, run) && After(run) == ExampleState({1, 2, 3}, {1, 2, 3}, true, Some([])) && !RightIn(EXAMPLE, After(run))
  {
    hide SpentBy, InputVoided, InputWon;
    ExampleViews(2);
    ExampleViews(3);
    var s0 := ExampleState({}, {}, false, None);
    var s1 := ExampleState({1}, {}, true, None);
    var s2 := ExampleState({1, 2}, {}, false, Some([2]));
    var s3 := ExampleState({1, 2}, {2}, true, Some([]));
    var s4 := ExampleState({1, 2}, {1, 2}, false, Some([]));
    var s5 := ExampleState({1, 2, 3}, {1, 2}, false, Some([3]));
    var s6 := ExampleState({1, 2, 3}, {1, 2, 3}, true, Some([]));
    run := [Step(s0, Arrived(1), s1), Step(s1, Arrived(2), s2), Step(s2, Voided(2), s3), Step(s3, Voided(1), s4),
            Step(s4, Arrived(3), s5), Step(s5, Voided(3), s6)];
    ExampleStep(run[0], {}, {}, false, None, {1}, {}, true, None);
    ExampleStep(run[1], {1}, {}, true, None, {1, 2}, {}, false, Some([2]));
    ExampleStep(run[2], {1, 2}, {}, false, Some([2]), {1, 2}, {2}, true, Some([]));
    ExampleStep(run[3], {1, 2}, {2}, true, Some([]), {1, 2}, {1, 2}, false, Some([]));
    ExampleStep(run[4], {1, 2}, {1, 2}, false, Some([]), {1, 2, 3}, {1, 2}, false, Some([3]));
    ExampleStep(run[5], {1, 2, 3}, {1, 2}, false, Some([3]), {1, 2, 3}, {1, 2, 3}, true, Some([]));
    hide IsStep;
    assert IsRun(EXAMPLE, run);
    assert !RightIn(EXAMPLE, s6) by { NotRight(s6); }
  }

  /** A transaction that spends an output of a voided one is reported as a winner before it is
      voided: the output becomes available, with no leftover list at all. */
  lemma {:induction false} WinnerMisleads() returns (run: seq<Step>)
    ensures IsRun(EXAMPLE, run) && After(run) == ExampleState({1, 2}, {1, 2}, true, Some([])) && !RightIn(EXAMPLE, After(run))
    ensures forall x | x in run && !x.event.Won? :: IsHarmless(EXAMPLE, x)
  {
    hide SpentBy, InputVoided, InputWon, IsHarmless, RightIn;
    ExampleViews(2);
    var s0 := ExampleState({}, {}, false, None);
    var s1 := ExampleState({1}, {}, true, None);
    var s2 := ExampleState({1}, {1}, false, None);
    var s3 := ExampleState({1, 2}, {1}, false, None);
    var s4 := ExampleState({1, 2}, {1}, false, Some([2]));
    var s5 := ExampleState({1, 2}, {1, 2}, true, Some([]));
    run := [Step(s0, Arrived(1), s1), Step(s1, Voided(1), s2), Step(s2, Arrived(2), s3), Step(s3, Won(2), s4), Step(s4, Voided(2), s5)];
    ExampleStep(run[0], {}, {}, false, None, {1}, {}, true, None);
    ExampleStep(run[1], {1}, {}, true, None, {1}, {1}, false, None);
    ExampleStep(run[2], {1}, {1}, false, None, {1, 2}, {1}, false, None);
    ExampleStep(run[3], {1, 2}, {1}, false, None, {1, 2}, {1}, false, Some([2]));
    ExampleStep(run[4], {1, 2}, {1}, false, Some([2]), {1, 2}, {1, 2}, true, Some([]));
    hide IsStep;
    assert IsRun(EXAMPLE, run);
    ExampleHarmless(run[0]);
    ExampleHarmless(run[1]);
    ExampleHarmless(run[2]);
    ExampleHarmless(run[4]);
    NotRight(s5);
  }

  lemma {:induction false} ExampleHarmless(x: Step)
    requires IsStep(EXAMPLE, x) && (x.event.Voided? || (x.event.Arrived? && x.before.books.spent == map[]))
    ensures IsHarmless(EXAMPLE, x)
  {
  }

  lemma {:induction false} NotRight(s: State)
    requires 1 in s.voided && (1, 0) in s.books.unspent
    ensures !RightIn(EXAMPLE, s)
  {
    ExampleOwns((1, 0));
    assert !Blank(s.books.At((1, 0)));
  }

  // ---- choosing inputs

  function AllKeys(store: Store): set<Key> { set h, i | h in store && 0 <= i < |store[h].outputs| :: (h, i) }

  function Values(store: Store): map<Key, int> { map k | k in AllKeys(store) :: At(store, k).value }

  /** Unspent outputs of a token that are neither an authority, nor too new, nor locked. */
  ghost function Available(store: Store, unspent: set<Key>, token: Token, maxTs: Option<int>, now: nat): set<Key> {
    set k | k in unspent && Exists(store, k) && At(store, k).token == token && !At(store, k).isAuthority
            && (maxTs.Some? ==> store[k.0].timestamp <= maxTs.value)
            && (At(store, k).timelock.Some? ==> At(store, k).timelock.value < now)
  }

  ghost function Worth(store: Store, keys: set<Key>): int
    requires keys <= AllKeys(store)
  {
    Sum(Values(store), keys)
  }

  lemma {:induction false} UsableInStore(store: Store, unspent: set<Key>, token: Token, maxTs: Option<int>, now: nat)
    ensures Available(store, unspent, token, maxTs, now) <= AllKeys(store)
  {
    forall k | k in Available(store, unspent, token, maxTs, now)
      ensures k in AllKeys(store)
    {
      assert k == (k.0, k.1);
    }
  }

  lemma {:induction false} WorthOfPart(store: Store, part: set<Key>, whole: set<Key>)
    requires part <= whole <= AllKeys(store)
    ensures 0 <= Worth(store, part) <= Worth(store, whole)
  {
    SumWithout(Values(store), whole, part);
    SumIsNat(Values(store), whole - part);
    SumIsNat(Values(store), part);
  }

  lemma {:induction false} WorthOfOneMore(store: Store, keys: set<Key>, k: Key)
    requires keys <= AllKeys(store) && k in AllKeys(store) && k !in keys
    ensures Worth(store, keys + {k}) == Worth(store, keys) + At(store, k).value
  {
    SumAdd(Values(store), keys, k);
  }

  datatype WalletOutput = WalletOutput(token: Token, value: nat)

  function Asked(outputs: seq<WalletOutput>, token: Token): nat {
    if outputs == [] then 0
    else (if outputs[0].token == token then outputs[0].value else 0) + Asked(outputs[1..], token)
  }

  lemma {:induction false} AskedLast(outputs: seq<WalletOutput>, o: WalletOutput, token: Token)
    ensures Asked(outputs + [o], token) == Asked(outputs, token) + if o.token == token then o.value else 0
    decreases |outputs|
  {
    if outputs == [] {
      assert [] + [o] == [o] && [o][1..] == [];
    } else {
      assert (outputs + [o])[1..] == outputs[1..] + [o];
      AskedLast(outputs[1..], o, token);
    }
  }

  lemma {:induction false} AskedFirst(o: WalletOutput, outputs: seq<WalletOutput>, token: Token)
    ensures Asked([o] + outputs, token) == Asked(outputs, token) + if o.token == token then o.value else 0
  {
    assert ([o] + outputs)[1..] == outputs;
  }

  function OfToken(store: Store, keys: set<Key>, token: Token): set<Key> {
    set k | k in keys && Exists(store, k) && At(store, k).token == token
  }

  function Tokens(outputs: seq<WalletOutput>): set<Token> { set o | o in outputs :: o.token }

  lemma {:induction false} NotAsked(outputs: seq<WalletOutput>, token: Token)
    requires token !in Tokens(outputs)
    ensures Asked(outputs, token) == 0
    decreases |outputs|
  {
    if outputs != [] {
      assert outputs[0] in outputs;
      assert forall o | o in outputs[1..] :: o in outputs;
      NotAsked(outputs[1..], token);
    }
  }

  /** What was chosen for a token is worth what the outputs ask of it. */
  ghost predicate Balanced(store: Store, inputs: seq<Key>, outputs: seq<WalletOutput>, token: Token) {
    OfToken(store, Elems(inputs), token) <= AllKeys(store) && Worth(store, OfToken(store, Elems(inputs), token)) == Asked(outputs, token)
  }

  ghost predicate Untouched(store: Store, inputs: seq<Key>, outputs: seq<WalletOutput>, wanted: seq<WalletOutput>, token: Token) {
    OfToken(store, Elems(inputs), token) == {} && Asked(outputs, token) == Asked(wanted, token)
  }

  function WithChange(outputs: seq<WalletOutput>, token: Token, total: nat, amount: nat): seq<WalletOutput> {
    if total > amount then [WalletOutput(token, total - amount)] + outputs else outputs
  }

  lemma {:induction false} TokenDone(store: Store, inputs: seq<Key>, outputs: seq<WalletOutput>, wanted: seq<WalletOutput>, token: Token,
                                     chosen: seq<Key>, total: nat, amount: nat)
    requires Untouched(store, inputs, outputs, wanted, token) && amount == Asked(wanted, token) <= total
    requires Elems(chosen) <= AllKeys(store) && total == Worth(store, Elems(chosen))
    requires forall k | k in chosen :: Exists(store, k) && At(store, k).token == token
    ensures Balanced(store, inputs + chosen, WithChange(outputs, token, total, amount), token)
    ensures forall other | other != token :: OfToken(store, Elems(inputs + chosen), other) == OfToken(store, Elems(inputs), other)
    ensures forall other | other != token :: Asked(WithChange(outputs, token, total, amount), other) == Asked(outputs, other)
  {
    hide Worth, Asked;
    forall other
      ensures Asked(WithChange(outputs, token, total, amount), other) == Asked(outputs, other) + if other == token then total - amount else 0
    {
      if total > amount {
        AskedFirst(WalletOutput(token, total - amount), outputs, other);
      }
    }
    assert Elems(inputs + chosen) == Elems(inputs) + Elems(chosen);
    assert OfToken(store, Elems(inputs + chosen), token) == OfToken(store, Elems(inputs), token) + OfToken(store, Elems(chosen), token);
    assert OfToken(store, Elems(chosen), token) == Elems(chosen);
    assert OfToken(store, Elems(inputs + chosen), token) == Elems(chosen);
    forall other | other != token
      ensures OfToken(store, Elems(inputs + chosen), other) == OfToken(store, Elems(inputs), other)
    {
    }
  }

  ghost predicate ChangedAt(b: Books, c: Books, k: Key, v: View) {
    forall j: Key :: c.At(j) == if j == k then v else b.At(j)
  }

  class Wallet {
    var unspent: set<Key>
    var maybeSpent: map<Key, nat>
    var spent: map<Key, seq<Hash>>

    constructor ()
      ensures unspent == {} && maybeSpent == map[] && spent == map[]
    {
      unspent, maybeSpent, spent := {}, map[], map[];
    }

    function B(): Books
      reads this
    {
      Books(unspent, maybeSpent, spent)
    }

    method AppendSpent(k: Key, t: Hash)
      modifies `spent
      ensures spent == old(spent)[k := (if k in old(spent) then old(spent)[k] else []) + [t]]
    {
      spent := spent[k := (if k in spent then spent[k] else []) + [t]];
    }

    /** Takes the output from the unspent ones, else from those set aside. */
    method PopUtxo(k: Key) returns (found: bool)
      modifies `unspent, `maybeSpent
      ensures found == (k in old(unspent) || k in old(maybeSpent))
      ensures unspent == old(unspent) - {k}
      ensures maybeSpent == if k in old(unspent) then old(maybeSpent) else old(maybeSpent) - {k}
    {
      found := k in unspent;
      unspent := unspent - {k};
      if !found {
        found := k in maybeSpent;
        maybeSpent := maybeSpent - {k};
      }
    }

    method NewInput(k: Key, t: Hash)
      modifies this
      ensures ChangedAt(old(B()), B(), k, SpentBy(old(B()).At(k), t))
    {
      var found := PopUtxo(k);
      if found || k in spent {
        AppendSpent(k, t);
      }
    }

    method OnNewTx(store: Store, t: Hash)
      requires ValidStore(store) && t in store
      modifies this
      ensures forall k: Key :: B().At(k) == AfterNew(store, t, k, old(B()).At(k))
    {
      hide SpentBy;
      var tx := store[t];
      ghost var before := B();
      var i := 0;
      while i < |tx.outputs|
        invariant i <= |tx.outputs|
        invariant forall k: Key :: B().At(k) == if Owned(store, k) && k.0 == t && k.1 < i then Received(before.At(k)) else before.At(k)
      {
        if tx.outputs[i].owned {
          unspent := unspent + {(t, i)};
        }
        i := i + 1;
      }
      ghost var middle := B();
      i := 0;
      while i < |tx.inputs|
        invariant i <= |tx.inputs|
        invariant forall k: Key :: B().At(k) == if Owned(store, k) && k in tx.inputs[..i] then SpentBy(middle.At(k), t) else middle.At(k)
      {
        var k := tx.inputs[i];
        assert tx.inputs[..i + 1] == tx.inputs[..i] + [k] && k !in tx.inputs[..i];
        if At(store, k).owned {
          NewInput(k, t);
        }
        i := i + 1;
      }
      assert tx.inputs[..i] == tx.inputs;
    }

    method VoidOutput(k: Key)
      modifies this
      ensures ChangedAt(old(B()), B(), k, OutputVoided(old(B()).At(k)))
    {
      var found := PopUtxo(k);
      if !found && k in spent {
        spent := spent - {k};
      }
    }

    method VoidInput(k: Key, t: Hash)
      modifies this
      ensures ChangedAt(old(B()), B(), k, InputVoided(old(B()).At(k), t))
    {
      if k in spent && t in spent[k] {
        spent := spent[k := Removed(spent[k], t)];
        if spent[k] == [] {
          unspent := unspent + {k};
        }
      }
    }

    method OnTxVoided(store: Store, t: Hash)
      requires ValidStore(store) && t in store
      modifies this
      ensures forall k: Key :: B().At(k) == AfterVoided(store, t, k, old(B()).At(k))
    {
      hide InputVoided, OutputVoided;
      var tx := store[t];
      ghost var before := B();
      var i := 0;
      while i < |tx.outputs|
        invariant i <= |tx.outputs|
        invariant forall k: Key :: B().At(k) == if Owned(store, k) && k.0 == t && k.1 < i then OutputVoided(before.At(k)) else before.At(k)
      {
        if tx.outputs[i].owned {
          VoidOutput((t, i));
        }
        i := i + 1;
      }
      ghost var middle := B();
      i := 0;
      while i < |tx.inputs|
        invariant i <= |tx.inputs|
        invariant forall k: Key :: B().At(k) == if Owned(store, k) && k in tx.inputs[..i] then InputVoided(middle.At(k), t) else middle.At(k)
      {
        var k := tx.inputs[i];
        assert tx.inputs[..i + 1] == tx.inputs[..i] + [k] && k !in tx.inputs[..i];
        if At(store, k).owned {
          VoidInput(k, t);
        }
        i := i + 1;
      }
      assert tx.inputs[..i] == tx.inputs;
    }

    method WinOutput(k: Key)
      modifies this
      ensures ChangedAt(old(B()), B(), k, OutputWon(old(B()).At(k)))
    {
      if k !in unspent && k !in maybeSpent && (k !in spent || spent[k] == []) {
        unspent := unspent + {k};
      }
    }

    method WinInput(k: Key, t: Hash)
      modifies this
      ensures ChangedAt(old(B()), B(), k, InputWon(old(B()).At(k), t))
    {
      var found := PopUtxo(k);
      if found || k !in spent || t !in spent[k] {
        AppendSpent(k, t);
      }
    }

    method OnTxWinner(store: Store, t: Hash)
      requires ValidStore(store) && t in store
      modifies this
      ensures forall k: Key :: B().At(k) == AfterWon(store, t, k, old(B()).At(k))
    {
      hide InputWon, OutputWon;
      var tx := store[t];
      ghost var before := B();
      var i := 0;
      while i < |tx.outputs|
        invariant i <= |tx.outputs|
        invariant forall k: Key :: B().At(k) == if Owned(store, k) && k.0 == t && k.1 < i then OutputWon(before.At(k)) else before.At(k)
      {
        if tx.outputs[i].owned {
          WinOutput((t, i));
        }
        i := i + 1;
      }
      ghost var middle := B();
      i := 0;
      while i < |tx.inputs|
        invariant i <= |tx.inputs|
        invariant forall k: Key :: B().At(k) == if Owned(store, k) && k in tx.inputs[..i] then InputWon(middle.At(k), t) else middle.At(k)
      {
        var k := tx.inputs[i];
        assert tx.inputs[..i + 1] == tx.inputs[..i] + [k] && k !in tx.inputs[..i];
        if At(store, k).owned {
          WinInput(k, t);
        }
        i := i + 1;
      }
      assert tx.inputs[..i] == tx.inputs;
    }

    /** Outputs set aside too long ago are available again. */
    method CheckUtxos(now: nat, interval: nat)
      requires unspent !! maybeSpent.Keys
      modifies this
      ensures unspent !! maybeSpent.Keys && spent == old(spent)
      ensures forall k: Key :: B().At(k) ==
                if k in old(maybeSpent) && old(maybeSpent)[k] + interval < now then TakenBack(old(B()).At(k)) else old(B()).At(k)
    {
      var left := maybeSpent.Keys;
      while left != {}
        invariant left <= old(maybeSpent).Keys && unspent !! maybeSpent.Keys && spent == old(spent)
        invariant forall k | k in left :: k in maybeSpent && maybeSpent[k] == old(maybeSpent)[k]
        invariant forall k: Key :: B().At(k) ==
                    if k in old(maybeSpent) && k !in left && old(maybeSpent)[k] + interval < now then TakenBack(old(B()).At(k)) else old(B()).At(k)
      {
        var k :| k in left;
        if maybeSpent[k] + interval < now {
          maybeSpent := maybeSpent - {k};
          unspent := unspent + {k};
        }
        left := left - {k};
      }
    }

    method ChooseInputs(store: Store, token: Token, amount: nat, maxTs: Option<int>, now: nat) returns (chosen: seq<Key>, total: nat)
      ensures Distinct(chosen) && Elems(chosen) <= Available(store, unspent, token, maxTs, now) <= AllKeys(store)
      ensures total == Worth(store, Elems(chosen))
      ensures total < amount <==> Worth(store, Available(store, unspent, token, maxTs, now)) < amount
    {
      ghost var available := Available(store, unspent, token, maxTs, now);
      UsableInStore(store, unspent, token, maxTs, now);
      chosen, total := [], 0;
      var left := unspent;
      assert Elems(chosen) == {};
      while left != {}
        invariant left <= unspent && Distinct(chosen) && Elems(chosen) <= available && Elems(chosen) !! left
        invariant total == Worth(store, Elems(chosen))
        invariant available <= Elems(chosen) + left
      {
        var k :| k in left;
        left := left - {k};
        if !Exists(store, k) || At(store, k).token != token || (maxTs.Some? && store[k.0].timestamp > maxTs.value) {
          continue;
        }
        var isLocked := At(store, k).timelock.Some? && now <= At(store, k).timelock.value;
        if !isLocked && !At(store, k).isAuthority {
          assert k in available && Elems(chosen + [k]) == Elems(chosen) + {k};
          WorthOfOneMore(store, Elems(chosen), k);
          chosen, total := chosen + [k], total + At(store, k).value;
          if total >= amount {
            break;
          }
        }
      }
      WorthOfPart(store, Elems(chosen), available);
      if total < amount {
        assert Elems(chosen) == available;
      }
    }

    /** Fails exactly if what is available is worth less than the amount. */
    method GetInputsFromAmount(store: Store, token: Token, amount: nat, maxTs: Option<int>, now: nat) returns (r: Option<(seq<Key>, nat)>)
      modifies `unspent, `maybeSpent
      ensures Available(store, old(unspent), token, maxTs, now) <= AllKeys(store)
      ensures r.None? <==> Worth(store, Available(store, old(unspent), token, maxTs, now)) < amount
      ensures r.None? ==> unspent == old(unspent) && maybeSpent == old(maybeSpent)
      ensures r.Some? ==> forall k | k in r.value.0 ::
                && k in old(unspent) && Exists(store, k) && At(store, k).token == token && !At(store, k).isAuthority
                && (maxTs.Some? ==> store[k.0].timestamp <= maxTs.value)
                && (At(store, k).timelock.Some? ==> At(store, k).timelock.value < now)
      ensures r.Some? ==> Distinct(r.value.0) && Elems(r.value.0) <= Available(store, old(unspent), token, maxTs, now)
      ensures r.Some? ==> r.value.1 == Worth(store, Elems(r.value.0)) && r.value.1 >= amount
      ensures r.Some? ==> unspent == old(unspent) - Elems(r.value.0)
      ensures forall k: Key :: B().At(k) == if r.Some? && k in r.value.0 then SetAside(old(B()).At(k)) else old(B()).At(k)
    {
      hide Worth;
      var chosen, total := ChooseInputs(store, token, amount, maxTs, now);
      if total < amount {
        return None;
      }
      var i := 0;
      assert Elems(chosen[..0]) == {};
      while i < |chosen|
        invariant i <= |chosen| && unspent == old(unspent) - Elems(chosen[..i])
        invariant forall k: Key :: B().At(k) == if k in chosen[..i] then SetAside(old(B()).At(k)) else old(B()).At(k)
      {
        var k := chosen[i];
        assert chosen[..i + 1] == chosen[..i] + [k] && k !in chosen[..i];
        assert k in Elems(chosen);
        unspent := unspent - {k};
        maybeSpent := maybeSpent[k := now];
        i := i + 1;
      }
      assert chosen[..i] == chosen;
      assert forall k | k in chosen :: k in Elems(chosen);
      return Some((chosen, total));
    }

    method SetOneAside(k: Key, now: nat) returns (found: bool)
      modifies `unspent, `maybeSpent
      ensures found == (old(B()).At(k).unspent || old(B()).At(k).maybe)
      ensures ChangedAt(old(B()), B(), k, SetAside(old(B()).At(k)))
    {
      found := PopUtxo(k);
      if found {
        maybeSpent := maybeSpent[k := now];
      }
    }

    /** Inputs given by the caller: each must be in the books, or with `force` at least be owned. */
    method PrepareIncompleteInputs(store: Store, inputs: seq<Key>, force: bool, now: nat) returns (r: Option<seq<Key>>)
      requires forall k | k in inputs :: Exists(store, k)
      modifies `unspent, `maybeSpent
      ensures r.Some? <==> Distinct(inputs)
                           && forall k | k in inputs :: k in old(unspent) || k in old(maybeSpent) || (force && At(store, k).owned)
      ensures r.Some? ==> |r.value| == |inputs| && forall i | 0 <= i < |inputs| :: r.value[i] == inputs[|inputs| - 1 - i]
      ensures r.Some? ==> forall k: Key :: B().At(k) == if k in inputs then SetAside(old(B()).At(k)) else old(B()).At(k)
      ensures forall k: Key :: B().At(k) == old(B()).At(k) || B().At(k) == SetAside(old(B()).At(k))
    {
      hide SetAside;
      if !Distinct(inputs) {
        return None;
      }
      var newInputs: seq<Key>, i := [], 0;
      while i < |inputs|
        invariant i == |newInputs| <= |inputs|
        invariant forall j | 0 <= j < i :: newInputs[j] == inputs[i - 1 - j]
        invariant forall k | k in inputs[..i] :: k in old(unspent) || k in old(maybeSpent) || (force && At(store, k).owned)
        invariant forall k: Key :: B().At(k) == if k in inputs[..i] then SetAside(old(B()).At(k)) else old(B()).At(k)
      {
        var k := inputs[i];
        assert inputs[..i + 1] == inputs[..i] + [k] && k !in inputs[..i];
        var found := SetOneAside(k, now);
        if !found && !(force && At(store, k).owned) {
          return None;
        }
        newInputs, i := [k] + newInputs, i + 1;
      }
      assert inputs[..i] == inputs;
      return Some(newInputs);
    }

    method SumByToken(outputs: seq<WalletOutput>) returns (amounts: map<Token, nat>)
      ensures amounts.Keys == Tokens(outputs) && forall token | token in amounts :: amounts[token] == Asked(outputs, token)
    {
      amounts := map[];
      var i := 0;
      while i < |outputs|
        invariant i <= |outputs| && amounts.Keys == Tokens(outputs[..i])
        invariant forall token | token in amounts :: amounts[token] == Asked(outputs[..i], token)
      {
        var o := outputs[i];
        assert outputs[..i + 1] == outputs[..i] + [o];
        forall token
          ensures Asked(outputs[..i + 1], token) == Asked(outputs[..i], token) + if o.token == token then o.value else 0
        {
          AskedLast(outputs[..i], o, token);
        }
        if o.token !in amounts {
          NotAsked(outputs[..i], o.token);
        }
        amounts := amounts[o.token := (if o.token in amounts then amounts[o.token] else 0) + o.value];
        i := i + 1;
      }
      assert outputs[..i] == outputs;
    }

    /** Inputs and change for the wanted outputs: every token of the result is balanced. Fails
        exactly if some token's available outputs are worth less than what is asked of it. */
    method PrepareComputeInputs(store: Store, wanted: seq<WalletOutput>, timestamp: Option<nat>, now: nat)
      returns (r: Option<(seq<Key>, seq<WalletOutput>)>)
      modifies `unspent, `maybeSpent
      ensures r.None? <==> exists token :: token in Tokens(wanted) && !Affordable(store, old(unspent), wanted, token, MaxTs(timestamp), now)
      ensures r.Some? ==> forall token :: Balanced(store, r.value.0, r.value.1, token)
      ensures r.Some? ==> Distinct(r.value.0) && forall k | k in r.value.0 ::
                && k in old(unspent) && Exists(store, k) && At(store, k).token in Tokens(wanted) && !At(store, k).isAuthority
                && (timestamp.Some? ==> store[k.0].timestamp < timestamp.value)
                && (At(store, k).timelock.Some? ==> At(store, k).timelock.value < now)
      ensures r.Some? ==> |wanted| <= |r.value.1| && r.value.1[|r.value.1| - |wanted|..] == wanted
      ensures r.Some? ==> forall k: Key :: B().At(k) == if k in r.value.0 then SetAside(old(B()).At(k)) else old(B()).At(k)
      ensures forall k: Key :: B().At(k) == old(B()).At(k) || (k in old(unspent) && B().At(k) == SetAside(old(B()).At(k)))
    {
      hide Worth, Asked, Balanced, Untouched, WithChange;
      ghost var maxTs := MaxTs(timestamp);
      forall token
        ensures Available(store, old(unspent), token, maxTs, now) <= AllKeys(store)
      {
        UsableInStore(store, old(unspent), token, maxTs, now);
      }
      var amounts := SumByToken(wanted);
      var inputs: seq<Key>, outputs := [], wanted;
      var left := amounts.Keys;
      Starting(store, old(unspent), wanted, maxTs, now);
      while left != {}
        invariant left <= amounts.Keys && unspent == old(unspent) - Elems(inputs)
        invariant Progress(store, old(unspent), wanted, left, inputs, outputs, maxTs, now)
        invariant forall k: Key :: B().At(k) == if k in inputs then SetAside(old(B()).At(k)) else old(B()).At(k)
      {
        hide Progress;
        var token :| token in left;
        FreshToken(store, old(unspent), wanted, left, inputs, outputs, maxTs, now, token);
        var got := GetInputsFromAmount(store, token, amounts[token], MaxTs(timestamp), now);
        if got.None? {
          assert token in Tokens(wanted);
          InputsWereUnspent(store, old(unspent), wanted, left, inputs, outputs, maxTs, now);
          return None;
        }
        var (chosen, total) := got.value;
        Chosen(store, old(unspent), wanted, left, inputs, outputs, maxTs, now, token, chosen, total);
        outputs := WithChange(outputs, token, total, amounts[token]);
        inputs := inputs + chosen;
        left := left - {token};
      }
      Finished(store, old(unspent), wanted, inputs, outputs, maxTs, now);
      return Some((inputs, outputs));
    }
  }

  ghost predicate AllUsable(store: Store, unspent: set<Key>, tokens: set<Token>, inputs: seq<Key>, maxTs: Option<int>, now: nat) {
    && Distinct(inputs)
    && forall k | k in inputs ::
         && k in unspent && Exists(store, k) && At(store, k).token in tokens && !At(store, k).isAuthority
         && (maxTs.Some? ==> store[k.0].timestamp <= maxTs.value)
         && (At(store, k).timelock.Some? ==> At(store, k).timelock.value < now)
  }

  ghost predicate Affordable(store: Store, unspent: set<Key>, wanted: seq<WalletOutput>, token: Token, maxTs: Option<int>, now: nat) {
    && Available(store, unspent, token, maxTs, now) <= AllKeys(store)
    && Worth(store, Available(store, unspent, token, maxTs, now)) >= Asked(wanted, token)
  }

  /** The tokens in `left` are still to do. */
  ghost predicate Progress(store: Store, unspent: set<Key>, wanted: seq<WalletOutput>, left: set<Token>,
                           inputs: seq<Key>, outputs: seq<WalletOutput>, maxTs: Option<int>, now: nat) {
    && AllUsable(store, unspent, Tokens(wanted), inputs, maxTs, now)
    && (forall token | token !in left :: Balanced(store, inputs, outputs, token))
    && (forall token | token in left :: Untouched(store, inputs, outputs, wanted, token))
    && (forall token | token in Tokens(wanted) && token !in left :: Affordable(store, unspent, wanted, token, maxTs, now))
    && |wanted| <= |outputs| && outputs[|outputs| - |wanted|..] == wanted
  }

  lemma {:induction false} Starting(store: Store, unspent: set<Key>, wanted: seq<WalletOutput>, maxTs: Option<int>, now: nat)
    ensures Progress(store, unspent, wanted, Tokens(wanted), [], wanted, maxTs, now)
  {
    StartBalanced(store, wanted);
  }

  lemma {:induction false} FreshToken(store: Store, unspent: set<Key>, wanted: seq<WalletOutput>, left: set<Token>,
                                      inputs: seq<Key>, outputs: seq<WalletOutput>, maxTs: Option<int>, now: nat, token: Token)
    requires Progress(store, unspent, wanted, left, inputs, outputs, maxTs, now) && token in left
    ensures Available(store, unspent - Elems(inputs), token, maxTs, now) == Available(store, unspent, token, maxTs, now)
  {
    assert Untouched(store, inputs, outputs, wanted, token);
    SameAvailable(store, unspent, inputs, token, maxTs, now);
  }

  lemma {:induction false} InputsWereUnspent(store: Store, unspent: set<Key>, wanted: seq<WalletOutput>, left: set<Token>,
                                             inputs: seq<Key>, outputs: seq<WalletOutput>, maxTs: Option<int>, now: nat)
    requires Progress(store, unspent, wanted, left, inputs, outputs, maxTs, now)
    ensures forall k | k in inputs :: k in unspent
  {
  }

  lemma {:induction false} Finished(store: Store, unspent: set<Key>, wanted: seq<WalletOutput>,
                                    inputs: seq<Key>, outputs: seq<WalletOutput>, maxTs: Option<int>, now: nat)
    requires Progress(store, unspent, wanted, {}, inputs, outputs, maxTs, now)
    ensures AllUsable(store, unspent, Tokens(wanted), inputs, maxTs, now) && forall k | k in inputs :: k in unspent
    ensures forall token :: Balanced(store, inputs, outputs, token)
    ensures forall token | token in Tokens(wanted) :: Affordable(store, unspent, wanted, token, maxTs, now)
    ensures |wanted| <= |outputs| && outputs[|outputs| - |wanted|..] == wanted
  {
  }

  lemma {:induction false} Joined(store: Store, unspent: set<Key>, tokens: set<Token>, inputs: seq<Key>, chosen: seq<Key>, token: Token, maxTs: Option<int>, now: nat)
    requires AllUsable(store, unspent, tokens, inputs, maxTs, now) && Distinct(chosen) && token in tokens
    requires Elems(chosen) <= Available(store, unspent - Elems(inputs), token, maxTs, now)
    ensures AllUsable(store, unspent, tokens, inputs + chosen, maxTs, now)
  {
    UsableOf(store, unspent - Elems(inputs), token, maxTs, now, chosen);
    var all := inputs + chosen;
    forall i, j | 0 <= i < j < |all|
      ensures all[i] != all[j]
    {
      assert j >= |inputs| ==> all[j] in chosen;
      assert i < |inputs| ==> all[i] in Elems(inputs);
    }
  }

  lemma {:induction false} Chosen(store: Store, unspent: set<Key>, wanted: seq<WalletOutput>, left: set<Token>,
                                  inputs: seq<Key>, outputs: seq<WalletOutput>, maxTs: Option<int>, now: nat, token: Token, chosen: seq<Key>, total: nat)
    requires Progress(store, unspent, wanted, left, inputs, outputs, maxTs, now) && token in left
    requires Distinct(chosen) && Elems(chosen) <= Available(store, unspent - Elems(inputs), token, maxTs, now) <= AllKeys(store)
    requires total == Worth(store, Elems(chosen)) && Asked(wanted, token) <= total
    requires Affordable(store, unspent, wanted, token, maxTs, now) && token in Tokens(wanted)
    ensures Progress(store, unspent, wanted, left - {token}, inputs + chosen, WithChange(outputs, token, total, Asked(wanted, token)), maxTs, now)
  {
    hide Worth, Asked, Available, AllUsable, Affordable;
    Joined(store, unspent, Tokens(wanted), inputs, chosen, token, maxTs, now);
    UsableOf(store, unspent - Elems(inputs), token, maxTs, now, chosen);
    TokenDone(store, inputs, outputs, wanted, token, chosen, total, Asked(wanted, token));
  }

  function MaxTs(timestamp: Option<nat>): Option<int> { if timestamp.Some? then Some(timestamp.value - 1) else None }

  lemma {:induction false} StartBalanced(store: Store, wanted: seq<WalletOutput>)
    ensures forall token | token !in Tokens(wanted) :: Balanced(store, [], wanted, token)
    ensures forall token :: Untouched(store, [], wanted, wanted, token)
  {
    forall token | token !in Tokens(wanted)
      ensures Balanced(store, [], wanted, token)
    {
      NotAsked(wanted, token);
      assert OfToken(store, Elems([]), token) == {};
    }
  }

  lemma {:induction false} SameAvailable(store: Store, unspent: set<Key>, inputs: seq<Key>, token: Token, maxTs: Option<int>, now: nat)
    requires OfToken(store, Elems(inputs), token) == {}
    ensures Available(store, unspent - Elems(inputs), token, maxTs, now) == Available(store, unspent, token, maxTs, now)
  {
    forall k | k in Available(store, unspent, token, maxTs, now)
      ensures k !in inputs
    {
      assert k !in OfToken(store, Elems(inputs), token);
    }
  }

  lemma {:induction false} UsableOf(store: Store, unspent: set<Key>, token: Token, maxTs: Option<int>, now: nat, chosen: seq<Key>)
    requires Elems(chosen) <= Available(store, unspent, token, maxTs, now)
    ensures forall k | k in chosen :: k in unspent && Exists(store, k) && At(store, k).token == token && !At(store, k).isAuthority
                                        && (maxTs.Some? ==> store[k.0].timestamp <= maxTs.value)
                                        && (At(store, k).timelock.Some? ==> At(store, k).timelock.value < now)
  {
    forall k | k in chosen
      ensures k in Available(store, unspent, token, maxTs, now)
    {
      assert k in Elems(chosen);
    }
  }
}
