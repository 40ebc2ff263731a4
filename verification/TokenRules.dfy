/** The token rules of a transaction: what `verify_sum` adds up per token, and which mints,
    melts, deposits and withdrawals it accepts. */
module TokenRules {
  import opened Collections
  import opened Sums

  type TokenUid = nat

  const HTR: TokenUid := 0

  // An output with its token index already resolved to the token uid.
  datatype Output = Output(token: TokenUid, value: nat, authority: bool) {
    predicate CanMint() { authority && value % 2 == 1 }

    predicate CanMelt() { authority && value / 2 % 2 == 1 }

    function Amount(): nat { if authority then 0 else value }
  }

  const ALL_AUTHORITIES := 3

  /** The lowest bit of an authority is to mint, the next one to melt. */
  lemma {:induction false} AuthorityBits(o: Output)
    requires o.authority && 0 < o.value <= ALL_AUTHORITIES
    ensures o.CanMint() <==> o.value in {1, 3}
    ensures o.CanMelt() <==> o.value in {2, 3}
  {
    assert o.value == 1 || o.value == 2 || o.value == 3;
  }

  datatype TokenInfo = TokenInfo(amount: int, canMint: bool, canMelt: bool)

  type TokenDict = map<TokenUid, TokenInfo>

  datatype Error =
    | NoInputsForToken | MintAuthorityNotInInputs | MeltAuthorityNotInInputs | UnknownAuthorities
    | NothingMinted | MeltedWithoutAuthority | MintedWithoutAuthority | HtrMismatch

  datatype Outcome = Accepted | Rejected(error: Error)

  /** The HTR to deposit when minting: 1% rounded up. */
  function DepositAmount(minted: nat): (htr: nat)
    ensures minted <= 100 * htr < minted + 100
  {
    (minted + 99) / 100
  }

  /** The HTR that melting gives back: 1% rounded down. */
  function WithdrawAmount(melted: nat): (htr: nat)
    ensures 100 * htr <= melted < 100 * htr + 100
  {
    melted / 100
  }

  // ---- the rule, stated without the dictionary

  function Total(outputs: seq<Output>, t: TokenUid): nat {
    if outputs == [] then 0 else
      var last := outputs[|outputs| - 1];
      Total(outputs[..|outputs| - 1], t) + if last.token == t then last.Amount() else 0
  }

  ghost predicate HasMint(outputs: seq<Output>, t: TokenUid) {
    exists o :: o in outputs && o.token == t && o.CanMint()
  }

  ghost predicate HasMelt(outputs: seq<Output>, t: TokenUid) {
    exists o :: o in outputs && o.token == t && o.CanMelt()
  }

  ghost function TokensOf(outputs: seq<Output>): set<TokenUid> {
    set o | o in outputs :: o.token
  }

  /** The tokens that a transaction may touch: HTR, those it spends, and the one it creates. */
  ghost function Known(spent: seq<Output>, created: Option<TokenUid>): set<TokenUid> {
    {HTR} + TokensOf(spent) + if created.Some? then {created.value} else {}
  }

  ghost predicate MayMint(spent: seq<Output>, created: Option<TokenUid>, t: TokenUid) {
    created == Some(t) || HasMint(spent, t)
  }

  ghost predicate MayMelt(spent: seq<Output>, created: Option<TokenUid>, t: TokenUid) {
    created == Some(t) || HasMelt(spent, t)
  }

  ghost function Net(spent: seq<Output>, outputs: seq<Output>, t: TokenUid): int {
    Total(outputs, t) - Total(spent, t)
  }

  /** What a change of a token's supply costs in HTR: a deposit, or minus a withdrawal. */
  function Fee(amount: int): int {
    if amount > 0 then DepositAmount(amount) else if amount < 0 then 0 - WithdrawAmount(-amount) else 0
  }

  ghost function Fees(spent: seq<Output>, outputs: seq<Output>, created: Option<TokenUid>): map<TokenUid, int> {
    map t | t in Known(spent, created) :: Fee(Net(spent, outputs, t))
  }

  ghost predicate OutputAllowed(spent: seq<Output>, created: Option<TokenUid>, o: Output) {
    && o.token in Known(spent, created)
    && (o.CanMint() ==> MayMint(spent, created, o.token))
    && (o.CanMelt() ==> MayMelt(spent, created, o.token))
    && (o.authority ==> o.value <= ALL_AUTHORITIES)
  }

  ghost predicate ChangeAllowed(spent: seq<Output>, outputs: seq<Output>, created: Option<TokenUid>, t: TokenUid) {
    && (Net(spent, outputs, t) < 0 ==> MayMelt(spent, created, t))
    && (Net(spent, outputs, t) > 0 ==> MayMint(spent, created, t))
  }

  /** The whole rule: authorities come from authorities, supply changes only under an
      authority, HTR pays the fees of all changes, and a created token is minted. */
  ghost predicate Balanced(spent: seq<Output>, outputs: seq<Output>, created: Option<TokenUid>) {
    && (forall o | o in outputs :: OutputAllowed(spent, created, o))
    && (forall t | t in Known(spent, created) && t != HTR :: ChangeAllowed(spent, outputs, created, t))
    && Net(spent, outputs, HTR) == -Sum(Fees(spent, outputs, created), Known(spent, created) - {HTR})
    && (created.Some? ==> Net(spent, outputs, created.value) > 0)
  }

  // ---- the dictionary

  /** The dictionary after the inputs: amounts are negative, authorities are collected. */
  ghost function InputInfo(spent: seq<Output>): TokenDict {
    map t | t in Known(spent, None) :: TokenInfo(0 - Total(spent, t), HasMint(spent, t), HasMelt(spent, t))
  }

  lemma {:induction false} InputInfoStep(spent: seq<Output>, i: nat)
    requires i < |spent|
    ensures var o, d := spent[i], InputInfo(spent[..i]);
      var was := if o.token in d then d[o.token] else TokenInfo(0, false, false);
      InputInfo(spent[..i + 1]) == d[o.token := if o.authority
        then TokenInfo(was.amount, was.canMint || o.CanMint(), was.canMelt || o.CanMelt())
        else TokenInfo(was.amount - o.value, was.canMint, was.canMelt)]
  {
    hide Total, HasMint, HasMelt, TokensOf;
    var a, o := spent[..i], spent[i];
    assert spent[..i + 1] == a + [o];
    NotHeld(a, o.token);
    forall t { OneMore(a, o, t); }
  }

  lemma {:induction false} NoInputInfo()
    ensures InputInfo([]) == map[HTR := TokenInfo(0, false, false)]
  {
    assert Known([], None) == {HTR};
  }

  lemma {:induction false} OneMore(a: seq<Output>, o: Output, t: TokenUid)
    ensures Total(a + [o], t) == Total(a, t) + if o.token == t then o.Amount() else 0
    ensures HasMint(a + [o], t) <==> HasMint(a, t) || (o.token == t && o.CanMint())
    ensures HasMelt(a + [o], t) <==> HasMelt(a, t) || (o.token == t && o.CanMelt())
    ensures t in TokensOf(a + [o]) <==> t in TokensOf(a) || t == o.token
  {
    assert (a + [o])[..|a + [o]| - 1] == a;
    assert forall x :: x in a + [o] <==> x in a || x == o;
  }

  lemma {:induction false} NotHeld(a: seq<Output>, t: TokenUid)
    ensures t !in TokensOf(a) ==> Total(a, t) == 0 && !HasMint(a, t) && !HasMelt(a, t)
  {
    if a != [] && t !in TokensOf(a) {
      var b := a[..|a| - 1];
      forall o | o in b ensures o in a { }
      assert a[|a| - 1].token in TokensOf(a);
      NotHeld(b, t);
      forall o | o in a ensures o.token in TokensOf(a) { }
    }
  }

  method TokenInfoFromInputs(spent: seq<Output>) returns (dict: TokenDict)
    ensures dict == InputInfo(spent)
  {
    hide InputInfo, Total, HasMint, HasMelt, Known;
    NoInputInfo();
    dict := map[HTR := TokenInfo(0, false, false)];
    assert spent[..0] == [];
    for i := 0 to |spent|
      invariant dict == InputInfo(spent[..i])
    {
      InputInfoStep(spent, i);
      var o := spent[i];
      var info := if o.token in dict then dict[o.token] else TokenInfo(0, false, false);
      if o.authority {
        info := TokenInfo(info.amount, info.canMint || o.CanMint(), info.canMelt || o.CanMelt());
      } else {
        info := TokenInfo(info.amount - o.value, info.canMint, info.canMelt);
      }
      dict := dict[o.token := info];
    }
    assert spent[..|spent|] == spent;
  }

  predicate Permitted(dict: TokenDict, o: Output) {
    && o.token in dict
    && (o.CanMint() ==> dict[o.token].canMint) && (o.CanMelt() ==> dict[o.token].canMelt)
    && (o.authority ==> o.value <= ALL_AUTHORITIES)
  }

  ghost function WithOutputs(dict: TokenDict, outputs: seq<Output>): TokenDict {
    map t | t in dict :: dict[t].(amount := dict[t].amount + Total(outputs, t))
  }

  lemma {:induction false} OneMoreOutput(outputs: seq<Output>, i: nat)
    requires i < |outputs|
    ensures forall t :: Total(outputs[..i + 1], t) == Total(outputs[..i], t) + if outputs[i].token == t then outputs[i].Amount() else 0
  {
    assert outputs[..i + 1][..i] == outputs[..i];
  }

  lemma {:induction false} NoOutputs(dict: TokenDict)
    ensures WithOutputs(dict, []) == dict
  {
  }

  method UpdateTokenInfoFromOutputs(dict0: TokenDict, outputs: seq<Output>) returns (r: Outcome, dict: TokenDict)
    ensures r.Accepted? <==> forall o | o in outputs :: Permitted(dict0, o)
    ensures r.Accepted? ==> dict == WithOutputs(dict0, outputs)
  {
    hide Total;
    dict := dict0;
    NoOutputs(dict0);
    assert outputs[..0] == [];
    for i := 0 to |outputs|
      invariant forall j | 0 <= j < i :: Permitted(dict0, outputs[j])
      invariant dict == WithOutputs(dict0, outputs[..i])
    {
      var o := outputs[i];
      assert o in outputs;
      OneMoreOutput(outputs, i);
      if o.token !in dict {
        return Rejected(NoInputsForToken), dict;
      }
      var info := dict[o.token];
      if o.CanMint() && !info.canMint {
        return Rejected(MintAuthorityNotInInputs), dict;
      }
      if o.CanMelt() && !info.canMelt {
        return Rejected(MeltAuthorityNotInInputs), dict;
      }
      if o.authority {
        if o.value > ALL_AUTHORITIES {
          return Rejected(UnknownAuthorities), dict;
        }
      } else {
        dict := dict[o.token := TokenInfo(info.amount + o.value, info.canMint, info.canMelt)];
      }
    }
    assert outputs[..|outputs|] == outputs;
    r := Accepted;
  }

  predicate Covered(info: TokenInfo) {
    (info.amount < 0 ==> info.canMelt) && (info.amount > 0 ==> info.canMint)
  }

  ghost function DictFees(dict: TokenDict): map<TokenUid, int> {
    map t | t in dict :: Fee(dict[t].amount)
  }

  method CheckAuthoritiesAndDeposit(dict: TokenDict) returns (r: Outcome)
    requires HTR in dict
    ensures r.Accepted? <==>
      && (forall t | t in dict && t != HTR :: Covered(dict[t]))
      && dict[HTR].amount == -Sum(DictFees(dict), dict.Keys - {HTR})
  {
    var withdraw, deposit := 0, 0;
    var rest, done: set<TokenUid> := dict.Keys - {HTR}, {};
    while rest != {}
      invariant rest + done == dict.Keys - {HTR} && rest !! done
      invariant forall t | t in done :: Covered(dict[t])
      invariant deposit - withdraw == Sum(DictFees(dict), done)
      decreases rest
    {
      var t :| t in rest;
      var info := dict[t];
      if info.amount < 0 {
        if !info.canMelt {
          return Rejected(MeltedWithoutAuthority);
        }
        withdraw := withdraw + WithdrawAmount(-info.amount);
      } else if info.amount > 0 {
        if !info.canMint {
          return Rejected(MintedWithoutAuthority);
        }
        deposit := deposit + DepositAmount(info.amount);
      }
      SumAdd(DictFees(dict), done, t);
      rest, done := rest - {t}, done + {t};
    }
    assert done == dict.Keys - {HTR};
    if dict[HTR].amount != withdraw - deposit {
      return Rejected(HtrMismatch);
    }
    r := Accepted;
  }

  /** The dictionary that is checked at the end, in terms of inputs and outputs. */
  ghost function FinalInfo(spent: seq<Output>, outputs: seq<Output>, created: Option<TokenUid>): TokenDict {
    map t | t in Known(spent, created) ::
      TokenInfo(Net(spent, outputs, t), MayMint(spent, created, t), MayMelt(spent, created, t))
  }

  /** `verify_sum` of a transaction, and of a token creation when `created` is its own hash. */
  method VerifySum(spent: seq<Output>, outputs: seq<Output>, created: Option<TokenUid>) returns (r: Outcome)
    requires created.Some? ==> created.value != HTR && created.value !in TokensOf(spent)
    ensures r.Accepted? <==> Balanced(spent, outputs, created)
  {
    hide Balanced, Known, Total, Sum, Fees, DictFees, OutputAllowed, Permitted, MayMint, MayMelt;
    var dict := TokenInfoFromInputs(spent);
    if created.Some? {
      dict := dict[created.value := TokenInfo(0, true, true)];
    }
    StartInfo(spent, created, dict);
    r, dict := UpdateTokenInfoFromOutputs(dict, outputs);
    BalancedIff(spent, outputs, created);
    if r.Rejected? {
      return;
    }
    assert dict == FinalInfo(spent, outputs, created);
    if created.Some? && dict[created.value].amount <= 0 {
      return Rejected(NothingMinted);
    }
    r := CheckAuthoritiesAndDeposit(dict);
  }

  lemma {:induction false} BalancedIff(spent: seq<Output>, outputs: seq<Output>, created: Option<TokenUid>)
    ensures var dict := FinalInfo(spent, outputs, created);
      && HTR in dict && (created.Some? ==> created.value in dict)
      && (Balanced(spent, outputs, created) <==>
          && (forall o | o in outputs :: OutputAllowed(spent, created, o))
          && (created.Some? ==> dict[created.value].amount > 0)
          && (forall t | t in dict && t != HTR :: Covered(dict[t]))
          && dict[HTR].amount == -Sum(DictFees(dict), dict.Keys - {HTR}))
  {
    var dict := FinalInfo(spent, outputs, created);
    assert dict.Keys == Known(spent, created);
    SameFees(spent, outputs, created);
    forall t | t in dict ensures Covered(dict[t]) <==> ChangeAllowed(spent, outputs, created, t) { }
  }

  lemma {:induction false} StartInfo(spent: seq<Output>, created: Option<TokenUid>, start: TokenDict)
    requires created.Some? ==> created.value != HTR && created.value !in TokensOf(spent)
    requires start == if created.Some? then InputInfo(spent)[created.value := TokenInfo(0, true, true)] else InputInfo(spent)
    ensures start == map t | t in Known(spent, created) ::
      TokenInfo(0 - Total(spent, t), MayMint(spent, created, t), MayMelt(spent, created, t))
    ensures forall o :: Permitted(start, o) <==> OutputAllowed(spent, created, o)
  {
    if created.Some? { NotHeld(spent, created.value); }
  }

  lemma {:induction false} SameFees(spent: seq<Output>, outputs: seq<Output>, created: Option<TokenUid>)
    ensures Sum(DictFees(FinalInfo(spent, outputs, created)), Known(spent, created) - {HTR})
         == Sum(Fees(spent, outputs, created), Known(spent, created) - {HTR})
  {
    SumSame(DictFees(FinalInfo(spent, outputs, created)), Fees(spent, outputs, created), Known(spent, created) - {HTR});
  }
}
