/** The issuance schedule: how many tokens a block of a given height mints, and the loop
    that adds up all blocks up to a height. */
module Rewards {
  import opened Arithmetic

  // `maxHalvings` is free here; the two amounts are in the smallest unit.
  datatype Settings = Settings(blocksPerHalving: nat, initial: nat, minimum: nat, maxHalvings: nat)

  // The default settings: 64.00 and 8.00 tokens per block, and int(log2(64) - log2(8)) halvings.
  const DEFAULT := Settings(2 * 60 * 24 * 365, 64 * 100, 8 * 100, 3)

  function Pow2(n: nat): (p: nat)
    ensures p > 0
  {
    if n == 0 then 1 else 2 * Pow2(n - 1)
  }

  function Max(a: int, b: int): int { if a < b then b else a }

  /** How many halvings are over at `height`; heights 0 and 1 are before the first. */
  function Halvings(s: Settings, height: nat): nat
    requires s.blocksPerHalving > 0
  {
    if height == 0 then 0 else (height - 1) / s.blocksPerHalving
  }

  function TokensIssuedPerBlock(s: Settings, height: nat): nat
    requires s.blocksPerHalving > 0
  {
    var n := Halvings(s, height);
    if n > s.maxHalvings then s.minimum else Max(s.initial / Pow2(n), s.minimum)
  }

  /** What all blocks after genesis up to `height` mint, one by one. */
  ghost function Issued(s: Settings, height: nat): nat
    requires s.blocksPerHalving > 0
  {
    if height == 0 then 0 else Issued(s, height - 1) + TokensIssuedPerBlock(s, height)
  }

  /** The amount per block that the summing loop uses after `n` halvings. */
  ghost function Halved(s: Settings, n: nat): nat {
    if n == 0 then s.initial else Max(Halved(s, n - 1) / 2, s.minimum)
  }

  /** What the summing loop returns. */
  ghost function Mined(s: Settings, height: nat): int
    requires s.blocksPerHalving > 0
  {
    var n := Halvings(s, height);
    PastHalvings(s, n) + (height - n * s.blocksPerHalving) * Halved(s, n)
  }

  ghost function PastHalvings(s: Settings, n: nat): nat {
    if n == 0 then 0 else PastHalvings(s, n - 1) + s.blocksPerHalving * Halved(s, n - 1)
  }

  method GetMinedTokens(s: Settings, height: nat) returns (mined: int)
    requires s.blocksPerHalving > 0
    ensures mined == Mined(s, height)
  {
    var halvings := Halvings(s, height);
    var blocksInThisHalving := height - halvings * s.blocksPerHalving;
    var tokensPerBlock := s.initial;
    mined := 0;
    for i := 0 to halvings
      invariant tokensPerBlock == Halved(s, i) && mined == PastHalvings(s, i)
    {
      mined := mined + s.blocksPerHalving * tokensPerBlock;
      tokensPerBlock := Max(tokensPerBlock / 2, s.minimum);
    }
    mined := mined + blocksInThisHalving * tokensPerBlock;
  }

  /** The settings fit together: the start is not below the minimum, and one halving more
      than the maximum number does not stay above it. */
  ghost predicate Coherent(s: Settings) {
    s.minimum <= s.initial && s.initial / Pow2(s.maxHalvings + 1) <= s.minimum
  }

  // ---- halving

  lemma {:induction false} HalvedIs(s: Settings, n: nat)
    requires s.minimum <= s.initial
    ensures Halved(s, n) == Max(s.initial / Pow2(n), s.minimum)
  {
    if n > 0 {
      HalvedIs(s, n - 1);
      var q := s.initial / Pow2(n - 1);
      DivideTwice(s.initial, Pow2(n - 1), 2);
      assert Pow2(n) == 2 * Pow2(n - 1);
    }
  }

  lemma {:induction false} Pow2Grows(m: nat, n: nat)
    requires m <= n
    ensures Pow2(m) <= Pow2(n)
  {
    if m < n { Pow2Grows(m, n - 1); }
  }

  /** The reward of a height in its halving, and after how many halvings it stays. */
  lemma {:induction false} RewardIsHalved(s: Settings, height: nat)
    requires s.blocksPerHalving > 0 && Coherent(s)
    ensures TokensIssuedPerBlock(s, height) == Halved(s, Halvings(s, height))
  {
    var n := Halvings(s, height);
    HalvedIs(s, n);
    if n > s.maxHalvings {
      Pow2Grows(s.maxHalvings + 1, n);
      DivShrinks(s.initial, Pow2(s.maxHalvings + 1), Pow2(n));
    }
  }

  // ---- the sum

  lemma {:induction false} HalvingsOf(s: Settings, n: nat, k: nat)
    requires s.blocksPerHalving > 0 && 1 <= k <= s.blocksPerHalving
    ensures Halvings(s, n * s.blocksPerHalving + k) == n
  {
    var x := n * s.blocksPerHalving + k - 1;
    assert x >= 0 by { assert n * s.blocksPerHalving >= 0; }
    DivIs(x, s.blocksPerHalving, n, k - 1);
  }

  /** Within a halving the issued amount grows by the same reward for every block. */
  lemma {:induction false} IssuedWithin(s: Settings, n: nat, k: nat)
    requires s.blocksPerHalving > 0 && Coherent(s) && k <= s.blocksPerHalving && n * s.blocksPerHalving >= 0
    ensures Issued(s, n * s.blocksPerHalving + k) == Issued(s, n * s.blocksPerHalving) + k * Halved(s, n)
  {
    if k > 0 {
      IssuedWithin(s, n, k - 1);
      HalvingsOf(s, n, k);
      RewardIsHalved(s, n * s.blocksPerHalving + k);
      assert k * Halved(s, n) == (k - 1) * Halved(s, n) + Halved(s, n);
    }
  }

  lemma {:induction false} IssuedAtHalving(s: Settings, n: nat)
    requires s.blocksPerHalving > 0 && Coherent(s)
    ensures n * s.blocksPerHalving >= 0 && Issued(s, n * s.blocksPerHalving) == PastHalvings(s, n)
  {
    if n > 0 {
      IssuedAtHalving(s, n - 1);
      IssuedWithin(s, n - 1, s.blocksPerHalving);
      assert n * s.blocksPerHalving == (n - 1) * s.blocksPerHalving + s.blocksPerHalving;
    }
  }

  lemma {:induction false} HeightInHalving(s: Settings, height: nat)
    requires s.blocksPerHalving > 0
    ensures 0 <= height - Halvings(s, height) * s.blocksPerHalving <= s.blocksPerHalving
  {
    var n := Halvings(s, height);
    if height > 0 { assert height - 1 == n * s.blocksPerHalving + (height - 1) % s.blocksPerHalving; }
  }

  /** The loop returns what the blocks mint one by one, at every height. */
  lemma {:induction false} MinedIsIssued(s: Settings, height: nat)
    requires s.blocksPerHalving > 0 && Coherent(s)
    ensures Mined(s, height) == Issued(s, height)
  {
    var n := Halvings(s, height);
    HeightInHalving(s, height);
    IssuedAtHalving(s, n);
    IssuedWithin(s, n, height - n * s.blocksPerHalving);
  }

  /** The two agree at all heights exactly for coherent settings. */
  lemma {:induction false} MinedIsIssuedIffCoherent(s: Settings)
    requires s.blocksPerHalving > 0
    ensures (forall height: nat :: Mined(s, height) == Issued(s, height)) <==> Coherent(s)
  {
    if Coherent(s) {
      forall height: nat ensures Mined(s, height) == Issued(s, height) { MinedIsIssued(s, height); }
    } else if s.initial < s.minimum {
      assert Halvings(s, 1) == 0;
      assert Pow2(0) == 1;
      assert Issued(s, 1) == Issued(s, 0) + s.minimum;
      assert Mined(s, 1) == s.initial;
    } else {
      FailsAfterLastHalving(s);
    }
  }

  lemma {:induction false} FailsAfterLastHalving(s: Settings)
    requires s.blocksPerHalving > 0 && s.minimum <= s.initial && s.initial / Pow2(s.maxHalvings + 1) > s.minimum
    ensures exists height: nat :: Mined(s, height) != Issued(s, height)
  {
    hide Halved, PastHalvings;
    var n := s.maxHalvings + 1;
    var h := n * s.blocksPerHalving;
    MinedAroundHalving(s, n);
    HalvedIs(s, n);
    assert TokensIssuedPerBlock(s, h + 1) == s.minimum;
    assert Issued(s, h + 1) == Issued(s, h) + s.minimum;
    assert Mined(s, h + 1) != Issued(s, h + 1) || Mined(s, h) != Issued(s, h);
  }

  /** The block after the `n`-th halving adds the halved amount to the loop's total. */
  lemma {:induction false} MinedAroundHalving(s: Settings, n: nat)
    requires s.blocksPerHalving > 0 && n > 0
    ensures n * s.blocksPerHalving >= 0 && Halvings(s, n * s.blocksPerHalving + 1) == n
    ensures Mined(s, n * s.blocksPerHalving + 1) == Mined(s, n * s.blocksPerHalving) + Halved(s, n)
  {
    assert n * s.blocksPerHalving == (n - 1) * s.blocksPerHalving + s.blocksPerHalving;
    HalvingsOf(s, n, 1);
    HalvingsOf(s, n - 1, s.blocksPerHalving);
  }

  /** The settings derive the number of halvings from the two amounts: the largest power of two
      that their quotient holds. Such settings are coherent. */
  lemma {:induction false} DerivedHalvingsAreCoherent(s: Settings)
    requires s.minimum > 0 && Pow2(s.maxHalvings) <= s.initial / s.minimum < Pow2(s.maxHalvings + 1)
    ensures Coherent(s)
  {
    hide Pow2;
    QuotientsCross(s.initial, s.minimum, Pow2(s.maxHalvings + 1));
  }

  /** The blocks from `n` halvings on to the next one mint the initial amount halved `n` times. */
  lemma {:induction false} RewardOfHalving(s: Settings, n: nat, k: nat)
    requires s.blocksPerHalving > 0 && 1 <= k <= s.blocksPerHalving
    ensures n * s.blocksPerHalving >= 0
    ensures TokensIssuedPerBlock(s, n * s.blocksPerHalving + k) == if n <= s.maxHalvings then Max(s.initial / Pow2(n), s.minimum) else s.minimum
  {
    HalvingsOf(s, n, k);
  }

  /** With the default settings: 64.00, 32.00, 16.00 and from then on 8.00 tokens, each for
      1051200 blocks. */
  lemma {:induction false} DefaultRewards(height: nat)
    requires height > 0
    ensures TokensIssuedPerBlock(DEFAULT, height)
         == if height <= 1_051_200 then 6400 else if height <= 2_102_400 then 3200 else if height <= 3_153_600 then 1600 else 800
  {
    assert Pow2(3) == 2 * Pow2(2) && Pow2(2) == 2 * Pow2(1);
    var n := Halvings(DEFAULT, height);
    assert n >= 4 || n == 0 || n == 1 || n == 2 || n == 3;
  }

  lemma {:induction false} DefaultIsCoherent()
    ensures Coherent(DEFAULT)
  {
    assert Pow2(4) == 2 * Pow2(3) == 4 * Pow2(2) == 8 * Pow2(1) == 16;
  }
}
