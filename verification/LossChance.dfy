/** The one-sided binomial test of the message floors, exactly: how likely so many losses are if gains are as likely. */
module LossChance {

  function Pow2(n: nat): nat { if n == 0 then 1 else 2 * Pow2(n - 1) }

  /** Binomial coefficients. */
  function Comb(n: nat, k: nat): nat {
    if k == 0 then 1 else if n == 0 then 0 else Comb(n - 1, k - 1) + Comb(n - 1, k)
  }

  /** The coefficients from `k` on. */
  function Tail(n: nat, k: nat): nat
    decreases if k <= n then n - k + 1 else 0
  {
    if k > n then 0 else Comb(n, k) + Tail(n, k + 1)
  }

  method LossChance(losses: nat, gains: nat) returns (r: real)
    ensures r == Chance(losses, gains)
  {
    var total := losses + gains;
    var sum: nat := 0;
    var count := total + 1;
    while count > losses
      invariant losses <= count <= total + 1 && sum == Tail(total, count)
    {
      count := count - 1;
      sum := sum + Comb(total, count);
    }
    Pow2Positive(total);
    r := Ratio(sum, Pow2(total));
  }

  function Ratio(a: nat, c: nat): real
    requires c > 0
  {
    a as real / c as real
  }

  function Chance(losses: nat, gains: nat): real {
    Pow2Positive(losses + gains);
    Ratio(Tail(losses + gains, losses), Pow2(losses + gains))
  }

  lemma {:induction false} Pow2Positive(n: nat)
    ensures Pow2(n) > 0
  {
    if n > 0 { Pow2Positive(n - 1); }
  }

  // ---- what the coefficients count

  function WithEnd(s: set<seq<bool>>, b: bool): set<seq<bool>> { set o | o in s :: o + [b] }

  /** Every way some messages can turn out: true is a loss. */
  function Outcomes(n: nat): set<seq<bool>> {
    if n == 0 then {[]}
    else WithEnd(Outcomes(n - 1), true) + WithEnd(Outcomes(n - 1), false)
  }

  function Losses(o: seq<bool>): nat {
    if o == [] then 0 else Losses(o[..|o| - 1]) + if o[|o| - 1] then 1 else 0
  }

  ghost function WithLosses(n: nat, k: nat): set<seq<bool>> { set o | o in Outcomes(n) && Losses(o) == k }

  lemma {:induction false} Appended(s: set<seq<bool>>, b: bool)
    ensures |WithEnd(s, b)| == |s|
    decreases |s|
  {
    if x :| x in s {
      Appended(s - {x}, b);
      assert WithEnd(s, b) == WithEnd(s - {x}, b) + {x + [b]};
      forall y | y in s - {x} ensures y + [b] != x + [b] {
        SameFront(x, y, b);
      }
    }
  }

  lemma SameFront(x: seq<bool>, y: seq<bool>, b: bool)
    ensures x + [b] == y + [b] <==> x == y
  {
    assert (x + [b])[..|x|] == x && (y + [b])[..|y|] == y;
  }

  lemma {:induction false} OneMore(o: seq<bool>, b: bool)
    ensures Losses(o + [b]) == Losses(o) + if b then 1 else 0
  {
    assert (o + [b])[..|o|] == o;
  }

  lemma WithLossesStep(n: nat, k: nat)
    requires n > 0
    ensures WithLosses(n, k)
         == WithEnd(WithLosses(n - 1, k), false) + if k > 0 then WithEnd(WithLosses(n - 1, k - 1), true) else {}
  {
    forall o | o in Outcomes(n - 1) ensures Losses(o + [true]) == Losses(o) + 1 && Losses(o + [false]) == Losses(o) {
      OneMore(o, true);
      OneMore(o, false);
    }
  }

  lemma {:induction false} NoMessages(k: nat)
    ensures |WithLosses(0, k)| == Comb(0, k)
  {
    if k == 0 {
      assert WithLosses(0, 0) == {[]};
    } else {
      assert WithLosses(0, k) == {};
    }
  }

  /** The ways of one more message: the last a gain, or the last a loss. */
  lemma WithLossesSize(n: nat, k: nat)
    requires n > 0
    ensures |WithLosses(n, k)| == |WithLosses(n - 1, k)| + if k > 0 then |WithLosses(n - 1, k - 1)| else 0
  {
    WithLossesStep(n, k);
    Appended(WithLosses(n - 1, k), false);
    if k > 0 {
      Appended(WithLosses(n - 1, k - 1), true);
      EndsApart(WithLosses(n - 1, k), WithLosses(n - 1, k - 1));
    } else {
      assert WithLosses(n, k) == WithEnd(WithLosses(n - 1, k), false);
    }
  }

  /** There are `Comb(n, k)` ways for k of n messages to be losses. */
  lemma {:induction false} CombCountsOutcomes(n: nat, k: nat)
    ensures |WithLosses(n, k)| == Comb(n, k)
  {
    if n == 0 {
      NoMessages(k);
    } else {
      WithLossesSize(n, k);
      CombCountsOutcomes(n - 1, k);
      if k > 0 { CombCountsOutcomes(n - 1, k - 1); }
    }
  }

  lemma EndsApart(a: set<seq<bool>>, b: set<seq<bool>>)
    ensures WithEnd(a, false) !! WithEnd(b, true)
  {
    forall o | o in a ensures (o + [false])[|o + [false]| - 1] == false {}
    forall o | o in b ensures (o + [true])[|o + [true]| - 1] == true {}
  }

  // ---- the tails

  lemma {:induction false} CombBeyond(n: nat, k: nat)
    requires k > n
    ensures Comb(n, k) == 0
  {
    if n > 0 {
      CombBeyond(n - 1, k - 1);
      CombBeyond(n - 1, k);
    }
  }

  /** The tail of one more message: with it a gain, or with it a loss. */
  lemma {:induction false} TailStep(n: nat, k: nat)
    ensures Tail(n + 1, k) == Tail(n, k) + if k > 0 then Tail(n, k - 1) else Tail(n, 0)
    decreases if k <= n + 1 then n + 2 - k else 0
  {
    if k <= n + 1 {
      TailStep(n, k + 1);
      if k == n + 1 { CombBeyond(n, n + 1); }
      assert Tail(n, k) == Comb(n, k) + Tail(n, k + 1) by { if k > n { CombBeyond(n, k); } }
      if k > 0 { assert Tail(n, k - 1) == Comb(n, k - 1) + Tail(n, k); }
    }
  }

  lemma {:induction false} WholeTail(n: nat)
    ensures Tail(n, 0) == Pow2(n)
  {
    if n > 0 {
      WholeTail(n - 1);
      TailStep(n - 1, 0);
    } else {
      assert Tail(0, 1) == 0;
    }
  }

  // ---- the chance as a share of the outcomes

  ghost function LossesFrom(n: nat, k: nat): set<seq<bool>> { set o | o in Outcomes(n) && Losses(o) >= k }

  lemma EndsSize(s: set<seq<bool>>)
    ensures |WithEnd(s, true) + WithEnd(s, false)| == 2 * |s|
  {
    Appended(s, true);
    Appended(s, false);
    EndsApart(s, s);
    hide WithEnd;
    assert WithEnd(s, true) !! WithEnd(s, false);
  }

  /** Each message is a loss or not, so each more doubles the outcomes. */
  lemma {:induction false} OutcomesSize(n: nat)
    ensures |Outcomes(n)| == Pow2(n)
  {
    if n > 0 {
      OutcomesSize(n - 1);
      EndsSize(Outcomes(n - 1));
      hide WithEnd;
    }
  }

  lemma {:induction false} LossesAtMost(n: nat, o: seq<bool>)
    requires o in Outcomes(n)
    ensures Losses(o) <= n
  {
    if n > 0 {
      var b :| o in WithEnd(Outcomes(n - 1), b);
      var front :| front in Outcomes(n - 1) && o == front + [b];
      LossesAtMost(n - 1, front);
      OneMore(front, b);
    }
  }

  lemma NoneBeyond(n: nat, k: nat)
    requires k > n
    ensures LossesFrom(n, k) == {}
  {
    forall o | o in Outcomes(n) ensures Losses(o) < k { LossesAtMost(n, o); }
  }

  /** So many losses, or more. */
  lemma LossesSplit(n: nat, k: nat)
    ensures |LossesFrom(n, k)| == |WithLosses(n, k)| + |LossesFrom(n, k + 1)|
  {
    hide Outcomes, Losses;
    assert LossesFrom(n, k) == WithLosses(n, k) + LossesFrom(n, k + 1);
    assert WithLosses(n, k) !! LossesFrom(n, k + 1);
  }

  /** The tail counts the outcomes with at least so many losses. */
  lemma {:induction false} TailCountsOutcomes(n: nat, k: nat)
    ensures |LossesFrom(n, k)| == Tail(n, k)
    decreases if k <= n then n - k + 1 else 0
  {
    hide LossesFrom, WithLosses, Comb;
    if k > n {
      NoneBeyond(n, k);
    } else {
      TailCountsOutcomes(n, k + 1);
      CombCountsOutcomes(n, k);
      LossesSplit(n, k);
    }
  }

  /** The chance is the share of all outcomes, each as likely, that have at least so many losses. */
  lemma {:induction false} ChanceIsShare(losses: nat, gains: nat)
    ensures |Outcomes(losses + gains)| > 0
    ensures Chance(losses, gains) == |LossesFrom(losses + gains, losses)| as real / |Outcomes(losses + gains)| as real
  {
    hide LossesFrom, Outcomes, Tail, Pow2;
    OutcomesSize(losses + gains);
    Pow2Positive(losses + gains);
    TailCountsOutcomes(losses + gains, losses);
  }

  // ---- symmetry

  lemma {:induction false} Symmetric(n: nat, k: nat)
    requires k <= n
    ensures Comb(n, k) == Comb(n, n - k)
  {
    if 0 < k < n {
      Symmetric(n - 1, k - 1);
      Symmetric(n - 1, k);
    } else {
      CombFull(n);
    }
  }

  lemma {:induction false} CombFull(n: nat)
    ensures Comb(n, n) == 1
  {
    if n > 0 {
      CombFull(n - 1);
      CombBeyond(n - 1, n);
    }
  }

  /** At least l losses, or more than the others' gains: between them every outcome once. */
  lemma {:induction false} TailsComplement(n: nat, k: nat)
    requires 1 <= k <= n + 1
    ensures Tail(n, k) + Tail(n, n + 1 - k) == Pow2(n)
    decreases n + 1 - k
  {
    WholeTail(n);
    if k <= n {
      TailsComplement(n, k + 1);
      Symmetric(n, k);
      assert Tail(n, n - k) == Comb(n, n - k) + Tail(n, n + 1 - k);
    }
  }

  // ---- the chance

  lemma RatioGrows(a: nat, b: nat, c: nat)
    requires c > 0
    ensures a <= b ==> Ratio(a, c) <= Ratio(b, c)
    ensures a < b ==> Ratio(a, c) < Ratio(b, c)
  {}

  lemma RatioAdds(a: nat, b: nat, c: nat)
    requires c > 0
    ensures Ratio(a, c) + Ratio(b, c) == Ratio(a + b, c)
  {}

  lemma RatioWhole(c: nat)
    requires c > 0
    ensures Ratio(c, c) == 1.0
  {}

  lemma Doubled(a: nat, c: nat)
    requires c > 0
    ensures Ratio(2 * a, 2 * c) == Ratio(a, c)
  {}

  /** Without losses nothing speaks against the candidate. */
  lemma NoLossIsCertain(gains: nat)
    ensures Chance(0, gains) == 1.0
  {
    WholeTail(gains);
    Pow2Positive(gains);
    RatioWhole(Pow2(gains));
  }

  /** Reading losses as losses or gains as losses covers every outcome once. */
  lemma ChancesComplement(losses: nat, gains: nat)
    requires losses >= 1
    ensures Chance(losses, gains) + Chance(gains + 1, losses - 1) == 1.0
  {
    TotalsComplement(losses, gains, losses + gains);
  }

  lemma TotalsComplement(losses: nat, gains: nat, n: nat)
    requires losses >= 1 && n == losses + gains
    ensures Pow2(n) > 0 && Ratio(Tail(n, losses), Pow2(n)) + Ratio(Tail(n, gains + 1), Pow2(n)) == 1.0
  {
    TailsComplement(n, losses);
    Pow2Positive(n);
    RatioAdds(Tail(n, losses), Tail(n, gains + 1), Pow2(n));
    RatioWhole(Pow2(n));
  }

  lemma TailFalls(n: nat, k: nat)
    requires k <= n
    ensures Tail(n, k) > Tail(n, k + 1)
  {
    CombPositive(n, k);
  }

  lemma {:induction false} CombPositive(n: nat, k: nat)
    requires k <= n
    ensures Comb(n, k) > 0
  {
    if k > 0 {
      CombPositive(n - 1, k - 1);
    }
  }

  /** An extra gain never lowers the chance, and raises it if there is a loss at all. */
  lemma GainsRaise(losses: nat, gains: nat)
    ensures Chance(losses, gains + 1) >= Chance(losses, gains)
    ensures losses > 0 ==> Chance(losses, gains + 1) > Chance(losses, gains)
  {
    var n := losses + gains;
    TailStep(n, losses);
    Pow2Positive(n);
    Doubled(Tail(n, losses), Pow2(n));
    if losses > 0 { TailFalls(n, losses - 1); }
    RatioGrows(2 * Tail(n, losses), Tail(n + 1, losses), Pow2(n + 1));
  }

  /** An extra loss always lowers it. */
  lemma LossesLower(losses: nat, gains: nat)
    ensures Chance(losses + 1, gains) < Chance(losses, gains)
  {
    var n := losses + gains;
    TailStep(n, losses + 1);
    Pow2Positive(n);
    Doubled(Tail(n, losses), Pow2(n));
    TailFalls(n, losses);
    RatioGrows(Tail(n + 1, losses + 1), 2 * Tail(n, losses), Pow2(n + 1));
  }

  lemma {:induction false} BetterIsLikelier(losses: nat, gains: nat, fewer: nat, more: nat)
    requires fewer <= losses && gains <= more
    ensures Chance(fewer, more) >= Chance(losses, gains)
    decreases losses - fewer, more - gains
  {
    if fewer < losses {
      LossesLower(losses - 1, gains);
      BetterIsLikelier(losses - 1, gains, fewer, more);
    } else if gains < more {
      GainsRaise(losses, gains);
      BetterIsLikelier(losses, gains + 1, fewer, more);
    }
  }
}
