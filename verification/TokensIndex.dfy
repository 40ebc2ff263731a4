/** The tokens index: for every token the amount in circulation and the outputs that can mint or
    melt, kept up to date as vertices are added and deleted. */
module TokensIndex {
  import opened Collections
  import opened Sums

  type Hash = nat
  type Outpoint = (Hash, nat)

  const HTR: Hash := 0

  /** `token` is the token uid that the output's token index stands for. */
  datatype Output = Output(token: Hash, value: nat, isAuthority: bool, mint: bool, melt: bool)

  datatype Tx = Tx(timestamp: nat, inputs: seq<Outpoint>, outputs: seq<Output>, isTokenCreation: bool)

  type Store = map<Hash, Tx>

  predicate Exists(store: Store, o: Outpoint) { o.0 in store && o.1 < |store[o.0].outputs| }

  function At(store: Store, o: Outpoint): Output
    requires Exists(store, o)
  {
    store[o.0].outputs[o.1]
  }

  /** Inputs are distinct and older; a custom token comes from its creation or from an input. */
  predicate ValidTx(store: Store, h: Hash)
    requires h in store
  {
    && (forall i, j | 0 <= i < j < |store[h].inputs| :: store[h].inputs[i] != store[h].inputs[j])
    && (forall o | o in store[h].inputs :: Exists(store, o) && store[o.0].timestamp < store[h].timestamp)
    && forall out | out in store[h].outputs :: out.token == HTR || (out.token == h && store[h].isTokenCreation) || FromInput(store, h, out.token)
  }

  predicate FromInput(store: Store, h: Hash, token: Hash)
    requires h in store
  {
    exists o :: o in store[h].inputs && Exists(store, o) && At(store, o).token == token
  }

  predicate ValidStore(store: Store) {
    HTR !in store && forall h | h in store :: ValidTx(store, h)
  }

  function AllOutpoints(store: Store): set<Outpoint> {
    set h, i | h in store && 0 <= i < |store[h].outputs| :: (h, i)
  }

  predicate Spent(store: Store, indexed: set<Hash>, o: Outpoint) { exists h :: h in indexed && h in store && o in store[h].inputs }

  function Unspent(store: Store, indexed: set<Hash>): set<Outpoint> {
    set o | o in AllOutpoints(store) && o.0 in indexed && !Spent(store, indexed, o)
  }

  // ---- the status of a token

  datatype Status = Status(total: int, mint: set<Outpoint>, melt: set<Outpoint>)

  const BLANK := Status(0, {}, {})

  function Read(tokens: map<Hash, Status>, token: Hash): Status { if token in tokens then tokens[token] else BLANK }

  function Amounts(store: Store, token: Hash): map<Outpoint, int> {
    map o | o in AllOutpoints(store) :: if At(store, o).token == token && !At(store, o).isAuthority then At(store, o).value else 0
  }

  function Minters(store: Store, token: Hash, unspent: set<Outpoint>): set<Outpoint> {
    set o | o in unspent && Exists(store, o) && At(store, o).token == token && At(store, o).isAuthority && At(store, o).mint
  }

  function Melters(store: Store, token: Hash, unspent: set<Outpoint>): set<Outpoint> {
    set o | o in unspent && Exists(store, o) && At(store, o).token == token && At(store, o).isAuthority && At(store, o).melt
  }

  /** The naive definition: sum up and collect the unspent outputs of the token. */
  ghost function StatusOf(store: Store, token: Hash, unspent: set<Outpoint>): Status
    requires unspent <= AllOutpoints(store)
  {
    Status(Sum(Amounts(store, token), unspent), Minters(store, token, unspent), Melters(store, token, unspent))
  }

  ghost predicate Reflects(store: Store, tokens: map<Hash, Status>, unspent: set<Outpoint>) {
    unspent <= AllOutpoints(store) && forall token :: Read(tokens, token) == StatusOf(store, token, unspent)
  }

  // ---- one output more or less

  function With(s: Status, out: Output, o: Outpoint): Status {
    if out.isAuthority then Status(s.total, if out.mint then s.mint + {o} else s.mint, if out.melt then s.melt + {o} else s.melt)
    else s.(total := s.total + out.value)
  }

  function Without(s: Status, out: Output, o: Outpoint): Status {
    if out.isAuthority then Status(s.total, if out.mint then s.mint - {o} else s.mint, if out.melt then s.melt - {o} else s.melt)
    else s.(total := s.total - out.value)
  }

  lemma {:induction false} TotalWith(store: Store, token: Hash, unspent: set<Outpoint>, o: Outpoint)
    requires unspent <= AllOutpoints(store) && Exists(store, o) && o !in unspent
    ensures o in AllOutpoints(store)
    ensures Sum(Amounts(store, token), unspent + {o})
         == Sum(Amounts(store, token), unspent) + if At(store, o).token == token && !At(store, o).isAuthority then At(store, o).value else 0
  {
    assert o == (o.0, o.1);
    SumAdd(Amounts(store, token), unspent, o);
  }

  lemma {:induction false} AuthoritiesWith(store: Store, token: Hash, unspent: set<Outpoint>, o: Outpoint)
    requires Exists(store, o)
    ensures Minters(store, token, unspent + {o})
         == Minters(store, token, unspent) + if At(store, o).token == token && At(store, o).isAuthority && At(store, o).mint then {o} else {}
    ensures Melters(store, token, unspent + {o})
         == Melters(store, token, unspent) + if At(store, o).token == token && At(store, o).isAuthority && At(store, o).melt then {o} else {}
  {
  }

  lemma {:induction false} OneMore(store: Store, token: Hash, unspent: set<Outpoint>, o: Outpoint)
    requires unspent <= AllOutpoints(store) && Exists(store, o) && o !in unspent
    ensures o in AllOutpoints(store)
    ensures StatusOf(store, token, unspent + {o})
         == if At(store, o).token == token then With(StatusOf(store, token, unspent), At(store, o), o) else StatusOf(store, token, unspent)
  {
    TotalWith(store, token, unspent, o);
    AuthoritiesWith(store, token, unspent, o);
    hide Amounts, Minters, Melters, AllOutpoints, Sum;
  }

  lemma {:induction false} WithoutUndoesWith(s: Status, out: Output, o: Outpoint)
    requires o !in s.mint && o !in s.melt
    ensures Without(With(s, out, o), out, o) == s
  {
  }

  lemma {:induction false} OneLess(store: Store, token: Hash, unspent: set<Outpoint>, o: Outpoint)
    requires unspent <= AllOutpoints(store) && o in unspent
    ensures Exists(store, o)
    ensures StatusOf(store, token, unspent - {o})
         == if At(store, o).token == token then Without(StatusOf(store, token, unspent), At(store, o), o) else StatusOf(store, token, unspent)
  {
    assert Exists(store, o);
    var rest := unspent - {o};
    assert unspent == rest + {o};
    OneMore(store, token, rest, o);
    WithoutUndoesWith(StatusOf(store, token, rest), At(store, o), o);
    hide Amounts, AllOutpoints, Sum;
  }

  lemma {:induction false} AddedOne(store: Store, tokens: map<Hash, Status>, unspent: set<Outpoint>, o: Outpoint, tokens': map<Hash, Status>)
    requires Reflects(store, tokens, unspent) && Exists(store, o) && o !in unspent
    requires forall t :: Read(tokens', t) == if t == At(store, o).token then With(Read(tokens, t), At(store, o), o) else Read(tokens, t)
    ensures Reflects(store, tokens', unspent + {o})
  {
    hide StatusOf, Read, With;
    forall token
      ensures Read(tokens', token) == StatusOf(store, token, unspent + {o})
    {
      OneMore(store, token, unspent, o);
    }
    OneMore(store, HTR, unspent, o);
  }

  lemma {:induction false} RemovedOne(store: Store, tokens: map<Hash, Status>, unspent: set<Outpoint>, o: Outpoint, tokens': map<Hash, Status>)
    requires Reflects(store, tokens, unspent) && o in unspent && Exists(store, o)
    requires forall t :: Read(tokens', t) == if t == At(store, o).token then Without(Read(tokens, t), At(store, o), o) else Read(tokens, t)
    ensures Reflects(store, tokens', unspent - {o})
  {
    hide StatusOf, Read, Without;
    forall token
      ensures Read(tokens', token) == StatusOf(store, token, unspent - {o})
    {
      OneLess(store, token, unspent, o);
    }
  }

  // ---- one vertex more or less

  function Own(h: Hash, n: nat): seq<Outpoint> { seq(n, i => (h, i)) }

  ghost predicate Consistent(store: Store, indexed: set<Hash>) {
    && indexed <= store.Keys
    && (forall h, o | h in indexed && o in store[h].inputs :: o.0 in indexed)
    && forall h, k, o | h in indexed && k in indexed && o in store[h].inputs && o in store[k].inputs :: h == k
  }

  /** `h` may be added: what it spends is indexed and not spent yet, and nobody spends it yet. */
  ghost predicate MayAdd(store: Store, indexed: set<Hash>, h: Hash) {
    && h in store && h !in indexed
    && (forall o | o in store[h].inputs :: o.0 in indexed && !Spent(store, indexed, o))
    && forall k, o | k in indexed && k in store && o in store[k].inputs :: o.0 != h
  }

  ghost predicate HasNoSpender(store: Store, indexed: set<Hash>, h: Hash) {
    forall k, o | k in indexed && k in store && o in store[k].inputs :: o.0 != h
  }

  lemma {:induction false} OwnElems(h: Hash, n: nat)
    ensures forall o: Outpoint :: o in Elems(Own(h, n)) <==> o.0 == h && o.1 < n
  {
    forall o: Outpoint | o.0 == h && o.1 < n
      ensures o in Elems(Own(h, n))
    {
      assert Own(h, n)[o.1] == o;
    }
  }

  lemma {:induction false} AddedTx(store: Store, indexed: set<Hash>, h: Hash)
    requires ValidStore(store) && Consistent(store, indexed) && MayAdd(store, indexed, h)
    ensures Consistent(store, indexed + {h}) && HasNoSpender(store, indexed + {h}, h)
    ensures Elems(store[h].inputs) <= Unspent(store, indexed)
    ensures Unspent(store, indexed + {h}) == Unspent(store, indexed) - Elems(store[h].inputs) + Elems(Own(h, |store[h].outputs|))
    ensures Unspent(store, indexed) !! Elems(Own(h, |store[h].outputs|))
  {
    hide Own;
    assert ValidTx(store, h);
    OwnElems(h, |store[h].outputs|);
    forall o | o in AllOutpoints(store)
      ensures Spent(store, indexed + {h}, o) <==> Spent(store, indexed, o) || o in store[h].inputs
    {
    }
    forall o | o in store[h].inputs
      ensures o in Unspent(store, indexed)
    {
      assert Exists(store, o) && o == (o.0, o.1);
    }
  }

  lemma {:induction false} DeletedTx(store: Store, indexed: set<Hash>, h: Hash)
    requires ValidStore(store) && Consistent(store, indexed) && h in indexed && HasNoSpender(store, indexed, h)
    ensures Consistent(store, indexed - {h}) && MayAdd(store, indexed - {h}, h)
  {
    var rest := indexed - {h};
    forall o | o in store[h].inputs
      ensures o.0 in rest && !Spent(store, rest, o)
    {
      assert ValidTx(store, h);
    }
  }

  /** Whoever holds a custom token is its creation or has an indexed spender of the creation before it. */
  lemma {:induction false} TokenDescends(store: Store, indexed: set<Hash>, h: Hash, token: Hash)
    requires ValidStore(store) && Consistent(store, indexed) && h in indexed && token != HTR
    requires exists out :: out in store[h].outputs && out.token == token
    ensures h == token || !HasNoSpender(store, indexed, token)
    decreases store[h].timestamp
  {
    var out :| out in store[h].outputs && out.token == token;
    assert ValidTx(store, h);
    if h != token {
      var o :| o in store[h].inputs && Exists(store, o) && At(store, o).token == token;
      if o.0 != token {
        assert At(store, o) in store[o.0].outputs;
        TokenDescends(store, indexed, o.0, token);
      }
    }
  }

  /** When a token's creation without spenders goes, nothing of the token is left. */
  lemma {:induction false} NothingLeft(store: Store, indexed: set<Hash>, token: Hash)
    requires ValidStore(store) && Consistent(store, indexed) && token in indexed && HasNoSpender(store, indexed, token)
    ensures StatusOf(store, token, Unspent(store, indexed - {token})) == BLANK
  {
    var left := Unspent(store, indexed - {token});
    forall o | o in left
      ensures At(store, o).token != token
    {
      if At(store, o).token == token {
        assert At(store, o) in store[o.0].outputs;
        TokenDescends(store, indexed, o.0, token);
      }
    }
    SumOfZeros(Amounts(store, token), left);
  }

  class TokensIndex {
    var tokens: map<Hash, Status>
    ghost var indexed: set<Hash>

    constructor ()
      ensures tokens == map[] && indexed == {}
      ensures forall store | ValidStore(store) :: Valid(store)
    {
      tokens, indexed := map[], {};
      new;
      forall store | ValidStore(store)
        ensures Valid(store)
      {
        EmptyIndex(store);
      }
    }

    /** The index says of every token what the unspent outputs of the indexed vertices say. */
    ghost predicate Valid(store: Store)
      reads this
    {
      && ValidStore(store) && Consistent(store, indexed) && Reflects(store, tokens, Unspent(store, indexed))
      && forall h | h in indexed && store[h].isTokenCreation :: h in tokens
    }

    method AddToIndex(store: Store, o: Outpoint, ghost unspent: set<Outpoint>)
      requires Exists(store, o) && o !in unspent && Reflects(store, tokens, unspent)
      modifies `tokens
      ensures Reflects(store, tokens, unspent + {o}) && old(tokens).Keys <= tokens.Keys
    {
      var out := At(store, o);
      var token := out.token;
      if out.isAuthority {
        if out.mint {
          tokens := tokens[token := Read(tokens, token).(mint := Read(tokens, token).mint + {o})];
        }
        if out.melt {
          tokens := tokens[token := Read(tokens, token).(melt := Read(tokens, token).melt + {o})];
        }
      } else {
        tokens := tokens[token := Read(tokens, token).(total := Read(tokens, token).total + out.value)];
      }
      AddedOne(store, old(tokens), unspent, o, tokens);
    }

    method RemoveFromIndex(store: Store, o: Outpoint, ghost unspent: set<Outpoint>)
      requires Exists(store, o) && o in unspent && Reflects(store, tokens, unspent)
      modifies `tokens
      ensures Reflects(store, tokens, unspent - {o}) && old(tokens).Keys <= tokens.Keys
    {
      var out := At(store, o);
      var token := out.token;
      if out.isAuthority {
        if out.mint {
          tokens := tokens[token := Read(tokens, token).(mint := Read(tokens, token).mint - {o})];
        }
        if out.melt {
          tokens := tokens[token := Read(tokens, token).(melt := Read(tokens, token).melt - {o})];
        }
      } else {
        tokens := tokens[token := Read(tokens, token).(total := Read(tokens, token).total - out.value)];
      }
      RemovedOne(store, old(tokens), unspent, o, tokens);
    }

    method RemoveAll(store: Store, outpoints: seq<Outpoint>, ghost unspent: set<Outpoint>)
      requires Reflects(store, tokens, unspent) && DistinctIn(outpoints, unspent)
      modifies `tokens
      ensures Reflects(store, tokens, unspent - Elems(outpoints)) && old(tokens).Keys <= tokens.Keys
    {
      hide Reflects;
      var k := 0;
      assert unspent - Elems(outpoints[..0]) == unspent;
      while k < |outpoints|
        invariant k <= |outpoints| && old(tokens).Keys <= tokens.Keys
        invariant Reflects(store, tokens, unspent - Elems(outpoints[..k]))
      {
        var o := outpoints[k];
        assert outpoints[..k + 1] == outpoints[..k] + [o];
        assert unspent - Elems(outpoints[..k + 1]) == unspent - Elems(outpoints[..k]) - {o};
        InStore(store, tokens, unspent - Elems(outpoints[..k]), o);
        RemoveFromIndex(store, o, unspent - Elems(outpoints[..k]));
        k := k + 1;
      }
      assert outpoints[..k] == outpoints;
    }

    method AddAll(store: Store, outpoints: seq<Outpoint>, ghost unspent: set<Outpoint>)
      requires Reflects(store, tokens, unspent) && DistinctIn(outpoints, Elems(outpoints)) && Elems(outpoints) !! unspent
      requires forall o | o in outpoints :: Exists(store, o)
      modifies `tokens
      ensures Reflects(store, tokens, unspent + Elems(outpoints)) && old(tokens).Keys <= tokens.Keys
    {
      hide Reflects;
      var k := 0;
      assert unspent + Elems(outpoints[..0]) == unspent;
      while k < |outpoints|
        invariant k <= |outpoints| && old(tokens).Keys <= tokens.Keys
        invariant Reflects(store, tokens, unspent + Elems(outpoints[..k]))
      {
        var o := outpoints[k];
        assert outpoints[..k + 1] == outpoints[..k] + [o];
        assert unspent + Elems(outpoints[..k + 1]) == unspent + Elems(outpoints[..k]) + {o};
        assert o in Elems(outpoints);
        AddToIndex(store, o, unspent + Elems(outpoints[..k]));
        k := k + 1;
      }
      assert outpoints[..k] == outpoints;
    }

    method AddTx(store: Store, h: Hash)
      requires Valid(store) && MayAdd(store, indexed, h)
      modifies this
      ensures Valid(store) && indexed == old(indexed) + {h}
    {
      hide Reflects, Unspent, Spent, AllOutpoints, MayAdd, HasNoSpender, ValidTx, Read;
      AddedTx(store, indexed, h);
      InputsOf(store, h, Unspent(store, indexed));
      var tx := store[h];
      ghost var unspent := Unspent(store, indexed);
      RemoveAll(store, tx.inputs, unspent);
      AddAll(store, Own(h, |tx.outputs|), unspent - Elems(tx.inputs));
      indexed := indexed + {h};
      if tx.isTokenCreation {
        Touched(store, tokens, Unspent(store, indexed), h);
        tokens := tokens[h := Read(tokens, h)];
      }
    }

    method DelTx(store: Store, h: Hash)
      requires Valid(store) && h in indexed && HasNoSpender(store, indexed, h)
      modifies this
      ensures Valid(store) && indexed == old(indexed) - {h}
    {
      hide Reflects, Unspent, Spent, AllOutpoints, MayAdd, HasNoSpender, ValidTx, Read, StatusOf;
      ghost var rest := indexed - {h};
      DeletedTx(store, indexed, h);
      AddedTx(store, rest, h);
      InputsOf(store, h, Unspent(store, rest));
      assert rest + {h} == indexed;
      var tx := store[h];
      var own := Own(h, |tx.outputs|);
      ghost var before := Unspent(store, rest);
      AddAll(store, tx.inputs, Unspent(store, indexed));
      assert Unspent(store, indexed) + Elems(tx.inputs) == before + Elems(own);
      RemoveAll(store, own, before + Elems(own));
      assert before + Elems(own) - Elems(own) == before;
      if tx.isTokenCreation {
        NothingLeft(store, indexed, h);
        Forgotten(store, tokens, before, h);
        tokens := tokens - {h};
        // The list of transactions of the token is looked up next, which makes a blank entry.
        Touched(store, tokens, before, h);
        tokens := tokens[h := Read(tokens, h)];
      }
      indexed := rest;
    }
  }

  predicate DistinctIn(outpoints: seq<Outpoint>, within: set<Outpoint>) {
    Distinct(outpoints) && Elems(outpoints) <= within
  }

  lemma {:induction false} InputsOf(store: Store, h: Hash, unspent: set<Outpoint>)
    requires ValidStore(store) && h in store && Elems(store[h].inputs) <= unspent
    ensures DistinctIn(store[h].inputs, unspent) && DistinctIn(store[h].inputs, Elems(store[h].inputs))
    ensures forall o | o in store[h].inputs :: Exists(store, o)
    ensures DistinctIn(Own(h, |store[h].outputs|), Elems(Own(h, |store[h].outputs|)))
    ensures forall o | o in Own(h, |store[h].outputs|) :: Exists(store, o)
  {
    assert ValidTx(store, h);
  }

  lemma {:induction false} InStore(store: Store, tokens: map<Hash, Status>, unspent: set<Outpoint>, o: Outpoint)
    requires Reflects(store, tokens, unspent) && o in unspent
    ensures Exists(store, o)
  {
  }

  lemma {:induction false} EmptyIndex(store: Store)
    ensures Consistent(store, {}) && Reflects(store, map[], Unspent(store, {}))
  {
    assert Unspent(store, {}) == {};
  }

  lemma {:induction false} Touched(store: Store, tokens: map<Hash, Status>, unspent: set<Outpoint>, h: Hash)
    requires Reflects(store, tokens, unspent)
    ensures Reflects(store, tokens[h := Read(tokens, h)], unspent)
  {
    hide StatusOf;
    assert forall t :: Read(tokens[h := Read(tokens, h)], t) == Read(tokens, t);
  }

  lemma {:induction false} Forgotten(store: Store, tokens: map<Hash, Status>, unspent: set<Outpoint>, h: Hash)
    requires Reflects(store, tokens, unspent) && StatusOf(store, h, unspent) == BLANK
    ensures Reflects(store, tokens - {h}, unspent)
  {
    hide StatusOf;
    assert forall t :: t != h ==> Read(tokens - {h}, t) == Read(tokens, t);
  }

  /** What the index says depends on the set of indexed vertices only. */
  lemma {:induction false} SameSetSameStatus(store: Store, one: map<Hash, Status>, other: map<Hash, Status>, unspent: set<Outpoint>)
    requires Reflects(store, one, unspent) && Reflects(store, other, unspent)
    ensures forall token :: Read(one, token) == Read(other, token)
  {
  }

  /** Deleting a vertex that was just added leaves what the index says of every token as it was. */
  method AddThenDel(index: TokensIndex, store: Store, h: Hash)
    requires index.Valid(store) && MayAdd(store, index.indexed, h)
    modifies index
    ensures index.Valid(store) && index.indexed == old(index.indexed)
    ensures forall token :: Read(index.tokens, token) == Read(old(index.tokens), token)
  {
    hide Reflects, Unspent, AllOutpoints, Read, Consistent;
    ghost var before, indexed := index.tokens, index.indexed;
    index.AddTx(store, h);
    assert ValidTx(store, h);
    index.DelTx(store, h);
    assert index.indexed == indexed;
    SameSetSameStatus(store, before, index.tokens, Unspent(store, indexed));
  }

  /** And adding a vertex back that was just deleted does, too. */
  method DelThenAdd(index: TokensIndex, store: Store, h: Hash)
    requires index.Valid(store) && h in index.indexed && HasNoSpender(store, index.indexed, h)
    modifies index
    ensures index.Valid(store) && index.indexed == old(index.indexed)
    ensures forall token :: Read(index.tokens, token) == Read(old(index.tokens), token)
  {
    hide Reflects, Unspent, AllOutpoints, Read, Consistent, MayAdd;
    ghost var before, indexed := index.tokens, index.indexed;
    DeletedTx(store, indexed, h);
    index.DelTx(store, h);
    index.AddTx(store, h);
    assert index.indexed == indexed;
    SameSetSameStatus(store, before, index.tokens, Unspent(store, indexed));
  }
}
