/** How many of a hundred buckets fall to each split. */
module SplitShares {
  predicate IsBetween(b: nat, low: nat, high: nat) { low <= b < high }

  ghost function Between(low: nat, high: nat): set<nat> { set b: nat | b < high && IsBetween(b, low, high) }

  lemma {:induction false} BetweenSize(low: nat, high: nat)
    requires low <= high
    ensures |Between(low, high)| == high - low
    decreases high - low
  {
    if low == high {
      assert Between(low, high) == {};
    } else {
      BetweenSize(low, high - 1);
      assert Between(low, high) == Between(low, high - 1) + {high - 1};
    }
  }
}
