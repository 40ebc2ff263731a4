/** The ledger over whole runs of accepted blocks (on one chain) and accepted, conflict-free
    transactions: supply, deposits, and authorities. */
module Ledger {
  import opened Collections
  import opened Sums
  import opened TokenRules
  import Rewards

  type Hash = nat

  datatype Outpoint = Outpoint(tx: Hash, index: nat)

  // An output as a transaction holds it: the token is an index into its list of token uids,
  // and the top bit of the token byte marks an authority.
  datatype TxOutput = TxOutput(value: nat, tokenData: nat)

  function TokenIndex(o: TxOutput): nat { o.tokenData % 128 }

  predicate IsAuthority(o: TxOutput) { o.tokenData / 128 % 2 == 1 }

  /** The output with its token; index 0 is HTR, the others are off by one in the list. */
  function Resolve(tokens: seq<TokenUid>, o: TxOutput): Output
    requires TokenIndex(o) <= |tokens|
  {
    Output(if TokenIndex(o) == 0 then HTR else tokens[TokenIndex(o) - 1], o.value, IsAuthority(o))
  }

  predicate ValidIndexes(tokens: seq<TokenUid>, outputs: seq<TxOutput>) {
    forall o | o in outputs :: TokenIndex(o) <= |tokens|
  }

  function ResolveAll(tokens: seq<TokenUid>, outputs: seq<TxOutput>): seq<Output>
    requires ValidIndexes(tokens, outputs)
  {
    seq(|outputs|, i requires 0 <= i < |outputs| => Resolve(tokens, outputs[i]))
  }

  datatype Tx = Tx(timestamp: nat, inputs: seq<Outpoint>, outputs: seq<TxOutput>, tokens: seq<TokenUid>)

  /** `net` holds, for every token created so far, the HTR deposited minus withdrawn for it. */
  datatype State = State(
    settings: Rewards.Settings,
    txs: map<Hash, Tx>,
    outputs: map<Outpoint, Output>,
    unspent: set<Outpoint>,
    height: nat,
    net: map<TokenUid, int>)

  datatype Event =
    | NewBlock(hash: Hash, outputs: seq<TxOutput>)
    | NewTx(hash: Hash, tx: Tx)
    | NewToken(hash: Hash, tx: Tx)

  // ---- acceptance

  ghost predicate Fresh(s: State, h: Hash) {
    h != HTR && h !in s.txs && h !in s.net && forall i: nat :: Outpoint(h, i) !in s.outputs
  }

  /** A block mints only HTR, exactly the reward of its height. */
  ghost predicate AcceptsBlock(s: State, h: Hash, outputs: seq<TxOutput>)
    requires s.settings.blocksPerHalving > 0
  {
    && Fresh(s, h)
    && (forall o | o in outputs :: TokenIndex(o) == 0)
    && Total(ResolveAll([], outputs), HTR) == Rewards.TokensIssuedPerBlock(s.settings, s.height + 1)
  }

  /** The outputs that a list of inputs spends. */
  function Lookup(outputs: map<Outpoint, Output>, inputs: seq<Outpoint>): seq<Output>
    requires forall i | i in inputs :: i in outputs
  {
    seq(|inputs|, i requires 0 <= i < |inputs| => outputs[inputs[i]])
  }

  function Spent(s: State, tx: Tx): seq<Output>
    requires forall i | i in tx.inputs :: i in s.outputs
  {
    Lookup(s.outputs, tx.inputs)
  }

  /** Inputs exist, are unspent, older and distinct; outputs refer to listed tokens, are
      positive and hold no HTR authority; and the token rule holds. */
  ghost predicate AcceptsTx(s: State, h: Hash, tx: Tx, created: Option<TokenUid>) {
    && Fresh(s, h) && HTR !in tx.tokens
    && tx.inputs != [] && Distinct(tx.inputs)
    && (forall i | i in tx.inputs :: i in s.unspent && i in s.outputs && (i.tx in s.txs ==> s.txs[i.tx].timestamp < tx.timestamp))
    && ValidIndexes(tx.tokens, tx.outputs)
    && (forall o | o in tx.outputs :: o.value > 0 && !(TokenIndex(o) == 0 && IsAuthority(o)))
    && Balanced(Spent(s, tx), ResolveAll(tx.tokens, tx.outputs), created)
  }

  ghost predicate Accepts(s: State, e: Event)
    requires s.settings.blocksPerHalving > 0
  {
    match e
    case NewBlock(h, outputs) => AcceptsBlock(s, h, outputs)
    case NewTx(h, tx) => AcceptsTx(s, h, tx, None)
    case NewToken(h, tx) => tx.tokens == [h] && AcceptsTx(s, h, tx, Some(h))
  }

  // ---- effects

  ghost function Produced(h: Hash, n: nat): set<Outpoint> {
    set i | 0 <= i < n :: Outpoint(h, i)
  }

  ghost function WithOutputs(s: State, h: Hash, outs: seq<Output>): map<Outpoint, Output> {
    s.outputs + map p | p in Produced(h, |outs|) :: outs[p.index]
  }

  /** The fee account of each token moves by the fee of the transaction's change to it. */
  ghost function NextNet(net: map<TokenUid, int>, spent: seq<Output>, outs: seq<Output>, created: Option<TokenUid>): map<TokenUid, int> {
    map t | t in net.Keys + (Known(spent, created) - {HTR}) ::
      (if t in net then net[t] else 0) + if t in Known(spent, created) then Fee(Net(spent, outs, t)) else 0
  }

  ghost function ApplyTx(s: State, h: Hash, tx: Tx, created: Option<TokenUid>): State
    requires AcceptsTx(s, h, tx, created)
  {
    var outs := ResolveAll(tx.tokens, tx.outputs);
    s.(txs := s.txs[h := tx],
       outputs := WithOutputs(s, h, outs),
       unspent := s.unspent - Elems(tx.inputs) + Produced(h, |outs|),
       net := NextNet(s.net, Spent(s, tx), outs, created))
  }

  ghost function Apply(s: State, e: Event): State
    requires s.settings.blocksPerHalving > 0 && Accepts(s, e)
  {
    match e
    case NewBlock(h, outputs) =>
      var outs := ResolveAll([], outputs);
      s.(outputs := WithOutputs(s, h, outs), unspent := s.unspent + Produced(h, |outs|), height := s.height + 1)
    case NewTx(h, tx) => ApplyTx(s, h, tx, None)
    case NewToken(h, tx) => ApplyTx(s, h, tx, Some(h))
  }

  const GENESIS_TOKENS := 1_000_000_000 * 100

  /** The genesis block holds the pre-mined tokens in one output. */
  ghost function Genesis(settings: Rewards.Settings, h: Hash): State {
    State(settings, map[], map[Outpoint(h, 0) := Output(HTR, GENESIS_TOKENS, false)], {Outpoint(h, 0)}, 0, map[])
  }

  /** `events` is a run: each event is accepted in the state that the ones before it lead to. */
  ghost predicate IsRun(s: State, events: seq<Event>)
    requires s.settings.blocksPerHalving > 0
    decreases |events|
  {
    events == [] || (Accepts(s, events[0]) && IsRun(Apply(s, events[0]), events[1..]))
  }

  ghost function Run(s: State, events: seq<Event>): State
    requires s.settings.blocksPerHalving > 0 && IsRun(s, events)
    decreases |events|
  {
    if events == [] then s else Run(Apply(s, events[0]), events[1..])
  }

  // ---- supply

  ghost function Amounts(outputs: map<Outpoint, Output>, t: TokenUid): map<Outpoint, int> {
    map o | o in outputs :: if outputs[o].token == t then outputs[o].Amount() else 0
  }

  /** How much of a token the unspent outputs hold. */
  ghost function Supply(s: State, t: TokenUid): int
    requires s.unspent <= s.outputs.Keys
  {
    Sum(Amounts(s.outputs, t), s.unspent)
  }

  /** The amounts of the inputs of a transaction add up to their total. */
  lemma {:induction false} InputsTotal(outputs: map<Outpoint, Output>, inputs: seq<Outpoint>, t: TokenUid)
    requires Distinct(inputs) && forall i | i in inputs :: i in outputs
    ensures Elems(inputs) <= outputs.Keys
    ensures Sum(Amounts(outputs, t), Elems(inputs)) == Total(Lookup(outputs, inputs), t)
    decreases |inputs|
  {
    if inputs != [] {
      var a, o := inputs[..|inputs| - 1], inputs[|inputs| - 1];
      assert inputs == a + [o];
      InputsTotal(outputs, a, t);
      SplitLast(outputs, a, o, t);
      SumAdd(Amounts(outputs, t), Elems(a), o);
    }
  }

  lemma {:induction false} SplitLast(outputs: map<Outpoint, Output>, a: seq<Outpoint>, o: Outpoint, t: TokenUid)
    requires Distinct(a + [o]) && o in outputs && forall i | i in a :: i in outputs
    ensures forall i | i in a + [o] :: i in outputs
    ensures o !in Elems(a) && Elems(a + [o]) == Elems(a) + {o}
    ensures Total(Lookup(outputs, a + [o]), t) == Total(Lookup(outputs, a), t) + if outputs[o].token == t then outputs[o].Amount() else 0
  {
    assert Lookup(outputs, a + [o]) == Lookup(outputs, a) + [outputs[o]];
    OneMore(Lookup(outputs, a), outputs[o], t);
    forall k | 0 <= k < |a| ensures a[k] != o { assert (a + [o])[k] != (a + [o])[|a|]; }
  }

  lemma {:induction false} OutputsTotal(outputs: map<Outpoint, Output>, h: Hash, outs: seq<Output>, t: TokenUid, n: nat)
    requires n <= |outs| && forall i | 0 <= i < n :: Outpoint(h, i) in outputs && outputs[Outpoint(h, i)] == outs[i]
    ensures Produced(h, n) <= outputs.Keys
    ensures Sum(Amounts(outputs, t), Produced(h, n)) == Total(outs[..n], t)
  {
    if n > 0 {
      OutputsTotal(outputs, h, outs, t, n - 1);
      assert Produced(h, n) == Produced(h, n - 1) + {Outpoint(h, n - 1)};
      SumAdd(Amounts(outputs, t), Produced(h, n - 1), Outpoint(h, n - 1));
      assert outs[..n][..n - 1] == outs[..n - 1];
    }
  }

  /** What spending `gone` and producing `outs` does to the supply of a token. */
  lemma {:induction false} SupplyMoves(s: State, e: State, h: Hash, outs: seq<Output>, gone: set<Outpoint>, t: TokenUid)
    requires s.unspent <= s.outputs.Keys && gone <= s.unspent && (forall i: nat :: Outpoint(h, i) !in s.outputs)
    requires e.outputs == WithOutputs(s, h, outs) && e.unspent == s.unspent - gone + Produced(h, |outs|)
    ensures e.unspent <= e.outputs.Keys
    ensures Supply(e, t) == Supply(s, t) - Sum(Amounts(s.outputs, t), gone) + Total(outs, t)
  {
    var f, g := Amounts(s.outputs, t), Amounts(e.outputs, t);
    forall p | p in Produced(h, |outs|) ensures p !in s.outputs && p in e.outputs && e.outputs[p] == outs[p.index] { }
    assert s.outputs.Keys <= e.outputs.Keys && forall o | o in s.outputs :: e.outputs[o] == s.outputs[o] by {
      forall o | o in s.outputs ensures o !in Produced(h, |outs|) { }
    }
    SumWithout(f, s.unspent, gone);
    SumSame(f, g, s.unspent - gone);
    SumDisjoint(g, s.unspent - gone, Produced(h, |outs|));
    OutputsTotal(e.outputs, h, outs, t, |outs|);
    assert outs[..|outs|] == outs;
  }

  // ---- the invariant

  ghost predicate Sound(s: State) {
    && s.settings.blocksPerHalving > 0 && s.unspent <= s.outputs.Keys && HTR !in s.net
    && (forall o | o in s.outputs :: s.outputs[o].token == HTR || s.outputs[o].token in s.net)
    && (forall t | t in s.net :: 100 * s.net[t] >= Supply(s, t))
    && Supply(s, HTR) + Sum(s.net, s.net.Keys) == GENESIS_TOKENS + Rewards.Issued(s.settings, s.height)
  }

  lemma {:induction false} SupplyIsNat(s: State, t: TokenUid)
    requires s.unspent <= s.outputs.Keys
    ensures Supply(s, t) >= 0
  {
    SumIsNat(Amounts(s.outputs, t), s.unspent);
  }

  /** A fee is a hundredth of the change of supply, rounded up: it covers the change, and less would
      not. */
  lemma {:induction false} FeeCovers(amount: int)
    ensures amount <= 100 * Fee(amount) < amount + 100
  {
  }

  lemma {:induction false} TxSupply(s: State, h: Hash, tx: Tx, created: Option<TokenUid>, t: TokenUid)
    requires s.unspent <= s.outputs.Keys && AcceptsTx(s, h, tx, created)
    ensures var e := ApplyTx(s, h, tx, created);
      e.unspent <= e.outputs.Keys
      && Supply(e, t) == Supply(s, t) + Net(Spent(s, tx), ResolveAll(tx.tokens, tx.outputs), t)
  {
    hide Balanced, Supply, Total, Sum;
    var gone := Elems(tx.inputs);
    InputsTotal(s.outputs, tx.inputs, t);
    SupplyMoves(s, ApplyTx(s, h, tx, created), h, ResolveAll(tx.tokens, tx.outputs), gone, t);
  }

  lemma {:induction false} SpentAreKnown(s: State, tx: Tx, created: Option<TokenUid>)
    requires Sound(s) && forall i | i in tx.inputs :: i in s.outputs
    ensures forall t | t in Known(Spent(s, tx), created) :: t == HTR || t in s.net || created == Some(t)
  {
    forall o | o in Spent(s, tx) ensures o.token == HTR || o.token in s.net {
      var i :| 0 <= i < |Spent(s, tx)| && Spent(s, tx)[i] == o;
      assert tx.inputs[i] in tx.inputs;
    }
  }

  lemma {:induction false} BlockIsSound(s: State, h: Hash, outputs: seq<TxOutput>)
    requires Sound(s) && AcceptsBlock(s, h, outputs)
    ensures Sound(Apply(s, NewBlock(h, outputs)))
  {
    hide Supply, Sum, Total;
    var e := Apply(s, NewBlock(h, outputs));
    var outs := ResolveAll([], outputs);
    assert s.unspent - {} + Produced(h, |outs|) == e.unspent;
    assert forall o | o in outs :: o.token == HTR;
    forall t ensures Supply(e, t) == Supply(s, t) + if t == HTR then Total(outs, t) else 0 {
      SupplyMoves(s, e, h, outs, {}, t);
      NothingSummed(s, t);
      OnlyHtr(outs, t);
    }
    forall o | o in e.outputs ensures e.outputs[o].token == HTR || e.outputs[o].token in e.net {
      if o in Produced(h, |outs|) { assert outs[o.index] in outs; }
    }
    assert Rewards.Issued(s.settings, s.height + 1)
        == Rewards.Issued(s.settings, s.height) + Rewards.TokensIssuedPerBlock(s.settings, s.height + 1);
  }

  lemma {:induction false} NothingSummed(s: State, t: TokenUid)
    ensures Sum(Amounts(s.outputs, t), {}) == 0
  {
  }

  lemma {:induction false} OnlyHtr(outs: seq<Output>, t: TokenUid)
    requires forall o | o in outs :: o.token == HTR
    ensures t != HTR ==> Total(outs, t) == 0
  {
    if t != HTR { NotHeld(outs, t); }
  }

  lemma {:induction false} TxIsSound(s: State, h: Hash, tx: Tx, created: Option<TokenUid>)
    requires Sound(s) && AcceptsTx(s, h, tx, created) && (created.Some? ==> created.value == h)
    ensures Sound(ApplyTx(s, h, tx, created))
  {
    hide Supply, Sum, Total, Balanced, Fee, Rewards.Issued;
    var e := ApplyTx(s, h, tx, created);
    var spent, outs := Spent(s, tx), ResolveAll(tx.tokens, tx.outputs);
    forall t { TxSupply(s, h, tx, created, t); }
    SpentAreKnown(s, tx, created);
    forall t | t in e.net ensures 100 * e.net[t] >= Supply(e, t) {
      FeeCovers(Net(spent, outs, t));
      if t !in Known(spent, created) { Untouched(spent, outs, created, t); }
      if t !in s.net { NotThereYet(s, t); }
    }
    forall o | o in e.outputs ensures e.outputs[o].token == HTR || e.outputs[o].token in e.net {
      if o in Produced(h, |outs|) { OutputsAreKnown(spent, outs, created, outs[o.index]); }
    }
    NetMoves(s.net, spent, outs, created);
    HtrPaysFees(spent, outs, created);
  }

  lemma {:induction false} OutputsAreKnown(spent: seq<Output>, outs: seq<Output>, created: Option<TokenUid>, o: Output)
    requires Balanced(spent, outs, created) && o in outs
    ensures o.token in Known(spent, created)
  {
    assert OutputAllowed(spent, created, o);
  }

  /** A token that is neither spent nor created by an accepted transaction does not change. */
  lemma {:induction false} Untouched(spent: seq<Output>, outs: seq<Output>, created: Option<TokenUid>, t: TokenUid)
    requires Balanced(spent, outs, created) && t !in Known(spent, created)
    ensures Net(spent, outs, t) == 0
  {
    NotHeld(spent, t);
    forall o | o in outs ensures o.token != t { OutputsAreKnown(spent, outs, created, o); }
    NotHeld(outs, t);
  }

  lemma {:induction false} HtrPaysFees(spent: seq<Output>, outs: seq<Output>, created: Option<TokenUid>)
    requires Balanced(spent, outs, created)
    ensures Net(spent, outs, HTR) == -Sum(Fees(spent, outs, created), Known(spent, created) - {HTR})
  {
  }

  /** Before a token is created there is none of it. */
  lemma {:induction false} NotThereYet(s: State, t: TokenUid)
    requires Sound(s) && t !in s.net && t != HTR
    ensures Supply(s, t) == 0
  {
    hide Sum;
    var f := Amounts(s.outputs, t);
    var zero := map o | o in s.outputs :: 0;
    forall o | o in s.unspent ensures f[o] == 0 { }
    SumSame(f, zero, s.unspent);
    SumOfZeros(zero, s.unspent);
  }

  /** The fee accounts together move by the fees of the transaction. */
  lemma {:induction false} NetMoves(net: map<TokenUid, int>, spent: seq<Output>, outs: seq<Output>, created: Option<TokenUid>)
    requires HTR !in net
    ensures var next := NextNet(net, spent, outs, created);
      Sum(next, next.Keys) == Sum(net, net.Keys) + Sum(Fees(spent, outs, created), Known(spent, created) - {HTR})
  {
    hide Sum, Fee, Known, Net;
    var next := NextNet(net, spent, outs, created);
    var fees, known := Fees(spent, outs, created), Known(spent, created) - {HTR};
    var all := next.Keys;
    var was := map t | t in all :: if t in net then net[t] else 0;
    var fee := map t | t in all :: if t in known then fees[t] else 0;
    SumPointwise(was, fee, next, all);
    SumPadded(was, net, all);
    assert forall t | t in known :: t in all;
    SumRestricted(fee, fees, known, all);
  }

  /** Keys whose value is zero can be left out of a sum. */
  lemma {:induction false} SumPadded<K(!new)>(f: map<K, int>, g: map<K, int>, all: set<K>)
    requires g.Keys <= all <= f.Keys && forall x | x in all :: f[x] == if x in g then g[x] else 0
    ensures Sum(f, all) == Sum(g, g.Keys)
  {
    SumRestricted(f, g, g.Keys, all);
  }

  lemma {:induction false} SumRestricted<K(!new)>(f: map<K, int>, g: map<K, int>, s: set<K>, all: set<K>)
    requires s <= all <= f.Keys && s <= g.Keys
    requires forall x | x in all :: f[x] == if x in s then g[x] else 0
    ensures Sum(f, all) == Sum(g, s)
  {
    SumOfZeros(f, all - s);
    SumDisjoint(f, s, all - s);
    assert s + (all - s) == all;
    SumSame(f, g, s);
  }

  // ---- whole runs

  lemma {:induction false} RunIsSound(s: State, events: seq<Event>)
    requires Sound(s) && IsRun(s, events)
    ensures Sound(Run(s, events))
    decreases |events|
  {
    hide Accepts, AcceptsTx, AcceptsBlock, Supply, Sum;
    if events != [] {
      StepIsSound(s, events[0]);
      RunIsSound(Apply(s, events[0]), events[1..]);
    }
  }

  lemma {:induction false} StepIsSound(s: State, e: Event)
    requires Sound(s) && Accepts(s, e)
    ensures Sound(Apply(s, e))
  {
    hide AcceptsTx, AcceptsBlock;
    match e
    case NewBlock(h, outputs) => BlockIsSound(s, h, outputs);
    case NewTx(h, tx) => TxIsSound(s, h, tx, None);
    case NewToken(h, tx) => TxIsSound(s, h, tx, Some(h));
  }

  lemma {:induction false} GenesisIsSound(settings: Rewards.Settings, h: Hash)
    requires settings.blocksPerHalving > 0
    ensures Sound(Genesis(settings, h))
  {
    var s := Genesis(settings, h);
    var f := Amounts(s.outputs, HTR);
    SumAdd(f, {}, Outpoint(h, 0));
    assert {} + {Outpoint(h, 0)} == s.unspent;
    assert s.net.Keys == {};
  }

  /** Conservation: after every run, the unspent HTR is the genesis amount plus what the
      mining loop says is mined at this height, minus the net deposits of all tokens; and the
      deposits of every token cover one percent of its circulating supply. */
  lemma {:induction false} Conservation(settings: Rewards.Settings, h: Hash, events: seq<Event>)
    requires settings.blocksPerHalving > 0 && Rewards.Coherent(settings) && IsRun(Genesis(settings, h), events)
    ensures var e := Run(Genesis(settings, h), events);
      && e.unspent <= e.outputs.Keys && e.settings == settings
      && Supply(e, HTR) == GENESIS_TOKENS + Rewards.Mined(settings, e.height) - Sum(e.net, e.net.Keys)
      && forall t | t in e.net :: 100 * e.net[t] >= Supply(e, t) >= 0
  {
    hide Supply, Sum, IsRun, Run, Rewards.Coherent;
    GenesisIsSound(settings, h);
    RunIsSound(Genesis(settings, h), events);
    var e := Run(Genesis(settings, h), events);
    SameSettings(Genesis(settings, h), events);
    Rewards.MinedIsIssued(settings, e.height);
    forall t | t in e.net ensures Supply(e, t) >= 0 { SupplyIsNat(e, t); }
  }

  lemma {:induction false} SameSettings(s: State, events: seq<Event>)
    requires s.settings.blocksPerHalving > 0 && IsRun(s, events)
    ensures Run(s, events).settings == s.settings
    decreases |events|
  {
    hide Accepts, AcceptsTx, AcceptsBlock;
    if events != [] { SameSettings(Apply(s, events[0]), events[1..]); }
  }

  // ---- authorities

  /** An authority to mint (or, if not `mint`, to melt). */
  predicate Grants(o: Output, mint: bool) { if mint then o.CanMint() else o.CanMelt() }

  /** Some unspent output grants the authority for `t`. */
  ghost predicate Held(s: State, t: TokenUid, mint: bool)
    requires s.unspent <= s.outputs.Keys
  {
    exists o :: o in s.unspent && s.outputs[o].token == t && Grants(s.outputs[o], mint)
  }

  /** Every authority that a transaction hands out for an older token, it has spent. */
  lemma {:induction false} AuthorityComesFromInputs(s: State, h: Hash, tx: Tx, created: Option<TokenUid>, o: Output, mint: bool)
    requires AcceptsTx(s, h, tx, created) && o in ResolveAll(tx.tokens, tx.outputs)
    requires Grants(o, mint) && created != Some(o.token)
    ensures exists i :: i in tx.inputs && s.outputs[i].token == o.token && Grants(s.outputs[i], mint)
  {
    var spent := Spent(s, tx);
    assert OutputAllowed(spent, created, o);
    var x :| x in spent && x.token == o.token && Grants(x, mint);
    var k :| 0 <= k < |spent| && spent[k] == x;
    assert tx.inputs[k] in tx.inputs;
  }

  lemma {:induction false} TxKeepsUnheld(s: State, h: Hash, tx: Tx, created: Option<TokenUid>, t: TokenUid)
    requires Sound(s) && AcceptsTx(s, h, tx, created) && (created.Some? ==> created.value == h)
    requires t in s.net && !Held(s, t, true)
    ensures var e := ApplyTx(s, h, tx, created);
      e.unspent <= e.outputs.Keys && !Held(e, t, true) && Supply(e, t) <= Supply(s, t)
  {
    hide Supply, Total, Sum, Balanced, HasMint;
    var e := ApplyTx(s, h, tx, created);
    var spent, outs := Spent(s, tx), ResolveAll(tx.tokens, tx.outputs);
    TxSupply(s, h, tx, created, t);
    forall o | o in e.unspent ensures !(e.outputs[o].token == t && Grants(e.outputs[o], true)) {
      if o in Produced(h, |outs|) {
        var x := outs[o.index];
        if x.token == t && Grants(x, true) { AuthorityComesFromInputs(s, h, tx, created, x, true); }
      }
    }
    assert !HasMint(spent, t) by { UnheldIsNotSpent(s, tx, t); }
    NoMintNoGrowth(spent, outs, created, t);
  }

  lemma {:induction false} UnheldIsNotSpent(s: State, tx: Tx, t: TokenUid)
    requires s.unspent <= s.outputs.Keys && !Held(s, t, true)
    requires forall i | i in tx.inputs :: i in s.unspent
    ensures !HasMint(Spent(s, tx), t)
  {
    forall x | x in Spent(s, tx) ensures !(x.token == t && x.CanMint()) {
      var k :| 0 <= k < |Spent(s, tx)| && Spent(s, tx)[k] == x;
      assert tx.inputs[k] in s.unspent;
      assert Grants(x, true) <==> x.CanMint();
    }
  }

  lemma {:induction false} NoMintNoGrowth(spent: seq<Output>, outs: seq<Output>, created: Option<TokenUid>, t: TokenUid)
    requires Balanced(spent, outs, created) && !HasMint(spent, t) && created != Some(t) && t != HTR
    ensures Net(spent, outs, t) <= 0
  {
    if t in Known(spent, created) {
      assert ChangeAllowed(spent, outs, created, t);
    } else {
      Untouched(spent, outs, created, t);
    }
  }

  lemma {:induction false} BlockKeepsUnheld(s: State, h: Hash, outputs: seq<TxOutput>, t: TokenUid)
    requires Sound(s) && AcceptsBlock(s, h, outputs) && t in s.net && !Held(s, t, true)
    ensures var e := Apply(s, NewBlock(h, outputs));
      e.unspent <= e.outputs.Keys && !Held(e, t, true) && Supply(e, t) == Supply(s, t)
  {
    hide Supply, Total, Sum;
    var e := Apply(s, NewBlock(h, outputs));
    var outs := ResolveAll([], outputs);
    assert s.unspent - {} + Produced(h, |outs|) == e.unspent;
    SupplyMoves(s, e, h, outs, {}, t);
    NothingSummed(s, t);
    OnlyHtr(outs, t);
    forall o | o in e.unspent ensures !(e.outputs[o].token == t && Grants(e.outputs[o], true)) {
      if o in Produced(h, |outs|) { assert outs[o.index] in outs; }
    }
  }

  /** Once no unspent output can mint an existing token, no continuation of the run brings
      the authority back or raises the supply. */
  lemma {:induction false} MintAuthorityIsNeverRecreated(s: State, events: seq<Event>, t: TokenUid)
    requires Sound(s) && IsRun(s, events) && t in s.net && !Held(s, t, true)
    ensures var e := Run(s, events);
      e.unspent <= e.outputs.Keys && !Held(e, t, true) && Supply(e, t) <= Supply(s, t)
    decreases |events|
  {
    hide Supply, Held, Sum, AcceptsTx, AcceptsBlock;
    if events != [] {
      var next := Apply(s, events[0]);
      StepIsSound(s, events[0]);
      match events[0] {
        case NewBlock(h, outputs) => BlockKeepsUnheld(s, h, outputs, t);
        case NewTx(h, tx) => TxKeepsUnheld(s, h, tx, None, t);
        case NewToken(h, tx) => TxKeepsUnheld(s, h, tx, Some(h), t);
      }
      MintAuthorityIsNeverRecreated(next, events[1..], t);
    }
  }

  /** `o` grants an authority that was handed down, spend by spend, from the transaction that
      created its token. */
  ghost predicate Descends(txs: map<Hash, Tx>, outputs: map<Outpoint, Output>, o: Outpoint, mint: bool)
    decreases if o.tx in txs then txs[o.tx].timestamp else 0
  {
    && o in outputs && o.tx in txs && Grants(outputs[o], mint)
    && (o.tx == outputs[o].token || exists i :: HandedDown(txs, outputs, i, o) && Descends(txs, outputs, i, mint))
  }

  /** The transaction of `o` spends `i`, an older output of the same token. */
  ghost predicate HandedDown(txs: map<Hash, Tx>, outputs: map<Outpoint, Output>, i: Outpoint, o: Outpoint) {
    && o in outputs && i in outputs && o.tx in txs && i.tx in txs
    && i in txs[o.tx].inputs && outputs[i].token == outputs[o].token && txs[i.tx].timestamp < txs[o.tx].timestamp
  }

  ghost predicate Traced(s: State) {
    forall o, mint | o in s.outputs && s.outputs[o].token != HTR && Grants(s.outputs[o], mint) ::
      Descends(s.txs, s.outputs, o, mint)
  }

  lemma {:induction false} DescendsStays(txs: map<Hash, Tx>, outputs: map<Outpoint, Output>,
                                         txs': map<Hash, Tx>, outputs': map<Outpoint, Output>, o: Outpoint, mint: bool)
    requires Descends(txs, outputs, o, mint)
    requires txs.Keys <= txs'.Keys && forall h | h in txs :: txs'[h] == txs[h]
    requires outputs.Keys <= outputs'.Keys && forall p | p in outputs :: outputs'[p] == outputs[p]
    ensures Descends(txs', outputs', o, mint)
    decreases txs[o.tx].timestamp
  {
    if o.tx != outputs[o].token {
      var i :| HandedDown(txs, outputs, i, o) && Descends(txs, outputs, i, mint);
      DescendsStays(txs, outputs, txs', outputs', i, mint);
      assert HandedDown(txs', outputs', i, o);
    }
  }

  lemma {:induction false} TxIsTraced(s: State, h: Hash, tx: Tx, created: Option<TokenUid>)
    requires Traced(s) && AcceptsTx(s, h, tx, created) && (created.Some? ==> created.value == h)
    ensures Traced(ApplyTx(s, h, tx, created))
  {
    hide Balanced, Total, Sum;
    var e := ApplyTx(s, h, tx, created);
    var outs := ResolveAll(tx.tokens, tx.outputs);
    assert forall p | p in s.outputs :: p !in Produced(h, |outs|);
    forall o, mint | o in e.outputs && e.outputs[o].token != HTR && Grants(e.outputs[o], mint)
      ensures Descends(e.txs, e.outputs, o, mint)
    {
      if o in s.outputs {
        DescendsStays(s.txs, s.outputs, e.txs, e.outputs, o, mint);
      } else if created != Some(e.outputs[o].token) {
        var x := outs[o.index];
        assert x in outs && x == e.outputs[o];
        AuthorityComesFromInputs(s, h, tx, created, x, mint);
        var i :| i in tx.inputs && s.outputs[i].token == x.token && Grants(s.outputs[i], mint);
        assert Descends(s.txs, s.outputs, i, mint);
        DescendsStays(s.txs, s.outputs, e.txs, e.outputs, i, mint);
        assert HandedDown(e.txs, e.outputs, i, o);
      }
    }
  }

  lemma {:induction false} BlockIsTraced(s: State, h: Hash, outputs: seq<TxOutput>)
    requires s.settings.blocksPerHalving > 0 && Traced(s) && AcceptsBlock(s, h, outputs)
    ensures Traced(Apply(s, NewBlock(h, outputs)))
  {
    var e := Apply(s, NewBlock(h, outputs));
    var outs := ResolveAll([], outputs);
    assert forall p | p in s.outputs :: p !in Produced(h, |outs|);
    forall o, mint | o in e.outputs && e.outputs[o].token != HTR && Grants(e.outputs[o], mint)
      ensures Descends(e.txs, e.outputs, o, mint)
    {
      DescendsStays(s.txs, s.outputs, e.txs, e.outputs, o, mint);
    }
  }

  lemma {:induction false} RunIsTraced(s: State, events: seq<Event>)
    requires s.settings.blocksPerHalving > 0 && Traced(s) && IsRun(s, events)
    ensures Traced(Run(s, events))
    decreases |events|
  {
    hide Traced, AcceptsTx, AcceptsBlock;
    if events != [] {
      match events[0] {
        case NewBlock(h, outputs) => BlockIsTraced(s, h, outputs);
        case NewTx(h, tx) => TxIsTraced(s, h, tx, None);
        case NewToken(h, tx) => TxIsTraced(s, h, tx, Some(h));
      }
      RunIsTraced(Apply(s, events[0]), events[1..]);
    }
  }

  /** After every run from genesis, every authority over a token descends from its creation. */
  lemma {:induction false} AuthoritiesDescendFromCreation(settings: Rewards.Settings, h: Hash, events: seq<Event>)
    requires settings.blocksPerHalving > 0 && IsRun(Genesis(settings, h), events)
    ensures Traced(Run(Genesis(settings, h), events))
  {
    RunIsTraced(Genesis(settings, h), events);
  }
}
