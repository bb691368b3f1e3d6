/**
 The counting arithmetic of the n-gram inverse: an n-gram's value times the sum of its order says how often a
 word holds it, exactly for one word and as an upper bound for several.
 */
module NgramAllowance {
  import opened NgramFeatures
  import opened SetSums

  /** Python's `round`: to the nearest integer, halves to the even one. */
  function Round(x: real): int {
    var f := x.Floor;
    var d := x - f as real;
    if d < 0.5 then f else if d > 0.5 then f + 1 else if f % 2 == 0 then f else f + 1
  }

  lemma RoundReaches(x: real, k: int)
    ensures x > k as real - 0.5 ==> Round(x) >= k
    ensures x < k as real + 0.5 ==> Round(x) <= k
  {}

  /** The value of an n-gram times the sum of its order. */
  ghost function Amount(m: Grams, t: string): real { Value(m, t) * OrderSum(m, |t|) }

  /** How often a value lets a word hold its n-gram. */
  function AllowedBy(value: real, sum: real): int { Round(value * sum) }

  ghost function Allowed(m: Grams, t: string): int { AllowedBy(Value(m, t), OrderSum(m, |t|)) }

  // ---- how often a plain word can hold an n-gram

  lemma {:induction false} EndMarkOnce(s: string, t: string)
    requires |t| > 0 && t[|t| - 1] == '$' && |s| > 0 && '$' !in s[..|s| - 1]
    ensures Count(s, t) <= 1
    decreases |s|
  {
    if |s| > |t| {
      assert s[|t| - 1] in s[..|s| - 1];
      assert s[1..][..|s[1..]| - 1] == s[..|s| - 1][1..];
      EndMarkOnce(s[1..], t);
    } else if |s| == |t| {
      assert Count(s[1..], t) == 0;
    }
  }

  lemma {:induction false} InsideOnly(s: string, t: string)
    requires |t| > 0 && t[|t| - 1] != '$' && |s| > 0 && s[|s| - 1] == '$'
    ensures Count(s, t) <= if |s| > |t| then |s| - |t| else 0
    decreases |s|
  {
    if |s| >= |t| && |s| > 1 {
      InsideOnly(s[1..], t);
    }
  }

  /** Only the inside of a plain word can repeat an n-gram that is not its first. */
  lemma {:induction false} InnerCount(w: string, t: string)
    requires Plain(w) && |t| == WIDEST && t[0] != '^'
    ensures Count(Pad(w), t) <= if |w| > 4 then |w| - 3 else 1
    ensures Count(Pad(w), t) > 0 ==> |w| >= 3
    ensures t[3] == '$' ==> Count(Pad(w), t) <= 1
  {
    var rest := w + "$";
    assert Pad(w) == "^" + rest;
    FirstGramDiffers(rest, t);
    assert rest[..|rest| - 1] == w;
    if t[3] == '$' {
      EndMarkOnce(rest, t);
      CountAtMost(rest, t);
      if |w| == 2 { OnlyGram(w, t); }
    } else {
      InsideOnly(rest, t);
    }
  }

  lemma {:induction false} FirstGramDiffers(rest: string, t: string)
    requires |t| == WIDEST && t[0] != '^'
    ensures Count("^" + rest, t) == Count(rest, t)
  {
    var s := "^" + rest;
    assert s[1..] == rest && s[0] == '^';
    assert |s| >= 4 ==> s[..4][0] == '^';
    if |s| < 4 { CountAtMost(rest, t); }
  }

  lemma {:induction false} OnlyGram(w: string, t: string)
    requires |w| == 2 && |t| == WIDEST
    ensures Count(w + "$", t) == 0
  {}

  lemma {:induction false} CountAtMost(s: string, t: string)
    requires |t| > 0
    ensures Count(s, t) <= Positions(|s|, |t|)
    decreases |s|
  {
    if |s| >= |t| {
      CountAtMost(s[1..], t);
    }
  }

  // ---- arithmetic of roots, kept to one product a lemma

  lemma SquareOrder(a: real, b: real)
    requires a >= 0.0 && b >= 0.0
    ensures a <= b ==> Squared(a) <= Squared(b)
    ensures a > b ==> Squared(a) > Squared(b)
  {
    if a <= b {
      ProductAtLeast(b, b, a, a);
    } else {
      StrictSquares(b, a - b);
      assert b + (a - b) == a;
    }
  }

  lemma PositiveProduct(a: real, b: real)
    requires a >= 0.0 && b > 0.0
    ensures a * b >= 0.0
    ensures a > 0.0 ==> a * b > 0.0
  {}

  lemma StrictSquares(low: real, step: real)
    requires low >= 0.0 && step > 0.0
    ensures (low + step) * (low + step) > low * low
  {
    PositiveProduct(low, step);
    PositiveProduct(step, step);
    assert (low + step) * (low + step) == low * low + low * step + low * step + step * step;
  }

  lemma RootBounds(r: real, c: nat)
    requires r > 0.0 && Squared(r) == c as real && c >= 1
    ensures r >= 1.0
    ensures c <= 64 ==> r <= 8.0
    ensures c <= 68 ==> r <= 8.25
  {
    SquareOrder(1.0, r);
    SquareOrder(r, 8.0);
    SquareOrder(r, 8.25);
  }

  lemma QuotientTimes(k: real, r: real)
    requires r > 0.0
    ensures k * Quotient(1.0, r) == Quotient(k, r)
    ensures Quotient(k, r) * r == k
  {}

  lemma ProductIsQuotient(k: nat, step: real, r: real)
    requires r > 0.0 && step == Quotient(1.0, r)
    ensures k as real * step == Quotient(k as real, r)
  {
    QuotientTimes(k as real, r);
  }

  lemma QuotientAtLeast(a: real, r: real, bound: real)
    requires 0.0 < r <= bound && a >= 0.0
    ensures Quotient(a, r) >= a / bound
  {
    assert a / bound * r <= a / bound * bound;
    assert a / r * r == a;
  }

  lemma ProductAtLeast(a: real, b: real, x: real, y: real)
    requires a >= x >= 0.0 && b >= y >= 0.0
    ensures a * b >= x * y
  {
    assert a * b >= x * b >= x * y;
  }

  // ---- one word: exact

  lemma QuotientAtMostRoot(k: nat, c: nat, r: real)
    requires k <= c && 1 <= c <= 64 && r > 0.0 && Squared(r) == c as real
    ensures Quotient(k as real, r) <= CAP
  {
    RootBounds(r, c);
    QuotientTimes(k as real, r);
    if Quotient(k as real, r) > r {
      ProductAtLeast(Quotient(k as real, r), r, r, r);
      StrictProduct(Quotient(k as real, r), r, r);
    }
  }

  lemma StrictProduct(a: real, x: real, r: real)
    requires a > x && r > 0.0
    ensures a * r > x * r
  {}

  /** A word of at most 64 n-grams of an order: value times sum is the exact count. */
  lemma {:induction false} OneWordExact(w: string, t: string, root: nat -> real)
    requires SquareRoots(root) && 1 <= |t| <= WIDEST && w != ""
    requires |t| <= |w| + 2 && Positions(|w| + 2, |t|) <= 64
    requires t in FrameGrams([w], root)
    ensures Amount(FrameGrams([w], root), t) == Count(Pad(w), t) as real
    ensures Allowed(FrameGrams([w], root), t) == Count(Pad(w), t)
  {
    OneWordSum(w, |t|, root);
    OneWordValue(w, t, root);
    ExactProduct(FrameGrams([w], root), t, Count(Pad(w), t), root(Positions(|w| + 2, |t|)));
  }

  lemma ExactProduct(m: Grams, t: string, k: nat, r: real)
    requires r > 0.0 && Value(m, t) == Quotient(k as real, r) && OrderSum(m, |t|) == r
    ensures Amount(m, t) == k as real
    ensures Allowed(m, t) == k
  {
    QuotientTimes(k as real, r);
    RoundReaches(k as real, k);
  }

  lemma OneWordSum(w: string, order: nat, root: nat -> real)
    requires SquareRoots(root) && 1 <= order <= WIDEST && w != ""
    requires order <= |w| + 2 && Positions(|w| + 2, order) <= 64
    ensures OrderSum(FrameGrams([w], root), order) == root(Positions(|w| + 2, order)) > 0.0
  {
    var keys := OfOrder(FrameGrams([w], root), order);
    SharesSum([w], w, order, root);
    forall u | u in keys
      ensures Value(FrameGrams([w], root), u) == Share(w, u, root)
    {
      OneWordValue(w, u, root);
    }
    SumCongruent(keys, u => Value(FrameGrams([w], root), u), u => Share(w, u, root));
    StepsReachRoot(|w| + 2, order, root);
  }

  lemma {:induction false} OneWordValue(w: string, t: string, root: nat -> real)
    requires SquareRoots(root) && 1 <= |t| <= WIDEST && w != ""
    requires |t| <= |w| + 2 && Positions(|w| + 2, |t|) <= 64
    ensures Value(FrameGrams([w], root), t) == Share(w, t, root)
    ensures Share(w, t, root) == Quotient(Count(Pad(w), t) as real, root(Positions(|w| + 2, |t|)))
  {
    var c, k := Positions(|w| + 2, |t|), Count(Pad(w), t);
    FrameValue([w], root, t);
    assert [w][..0] == [];
    assert Weight([w], t, root) == Weight([], t, root) + Share(w, t, root);
    ShareIsQuotient(w, t, root);
    CountAtMost(Pad(w), t);
    StepsReachRoot(|w| + 2, |t|, root);
    SquareOfRoot(c, root);
    QuotientAtMostRoot(k, c, root(c));
  }

  lemma {:induction false} ShareIsQuotient(w: string, t: string, root: nat -> real)
    requires SquareRoots(root) && w != "" && |t| <= |w| + 2
    ensures Share(w, t, root) == Quotient(Count(Pad(w), t) as real, root(Positions(|w| + 2, |t|)))
  {
    var k := Count(Pad(w), t);
    StepsReachRoot(|w| + 2, |t|, root);
    RepeatedIsProduct(k, Step(|w| + 2, |t|, root));
    ProductIsQuotient(k, Step(|w| + 2, |t|, root), root(Positions(|w| + 2, |t|)));
  }

  lemma SquareOfRoot(c: nat, root: nat -> real)
    requires SquareRoots(root)
    ensures Squared(root(c)) == c as real
  {}

  // ---- several words: an upper bound, for words of at most 69 characters

  /** The longest words whose n-grams the cap never hides. */
  const LONGEST_RESTORED: nat := 69

  /** The case of a capped value: the other n-grams of the word keep the sum high enough. */
  lemma CappedCase(sum: real, k: nat, r: real, n: nat)
    requires 2 <= n <= LONGEST_RESTORED && r > 0.0 && Squared(r) == (n - 1) as real
    requires k <= 64 || (k <= n - 3 && sum >= CAP + 2.0 * Quotient(1.0, r))
    requires sum >= CAP
    ensures CAP * sum > k as real - 0.5
  {
    if k > 64 {
      RootBounds(r, n - 1);
      QuotientAtLeast(1.0, r, 8.25);
    }
  }

  /** The case where another n-gram of the order is capped. */
  lemma OtherCappedCase(value: real, sum: real, k: nat, r: real, c: nat)
    requires 1 <= c < LONGEST_RESTORED && r > 0.0 && Squared(r) == c as real && 1 <= k <= c
    requires value >= Quotient(k as real, r) && sum >= CAP + value
    ensures value * sum > k as real - 0.5
  {
    RootBounds(r, c);
    var x := k as real / 8.25;
    QuotientAtLeast(k as real, r, 8.25);
    ProductAtLeast(value, sum, x, CAP + x);
    EnoughForRounding(k);
  }

  lemma EnoughForRounding(k: nat)
    requires 1 <= k <= 68
    ensures (k as real / 8.25) * (CAP + k as real / 8.25) > k as real - 0.5
  {
    var x := k as real;
    assert (x / 8.25) * (CAP + x / 8.25) == 8.0 * x / 8.25 + x * x / 68.0625;
    if k <= 16 {
      assert x * x >= 0.0;
    } else {
      assert x * x >= 17.0 * x;
    }
  }

  /** No value of the order is capped: the sum reaches sqrt(c). */
  lemma UncappedCase(value: real, sum: real, k: nat, r: real)
    requires r > 0.0 && value >= Quotient(k as real, r) && sum >= r
    ensures value * sum > k as real - 0.5
  {
    QuotientTimes(k as real, r);
    ProductAtLeast(value, sum, Quotient(k as real, r), r);
  }

  /** The lower bound of the value and sum, by whether and where the cap bites. */
  lemma {:induction false} SumReaches(words: seq<string>, w: string, t: string, root: nat -> real)
    requires SquareRoots(root) && w in words && Plain(w) && 3 <= |w| <= LONGEST_RESTORED
    requires |t| == WIDEST && t[0] != '^' && Count(Pad(w), t) > 0
    ensures t in FrameGrams(words, root)
    ensures var m, r, k := FrameGrams(words, root), root(|w| - 1), Count(Pad(w), t);
      var sum := OrderSum(m, WIDEST);
      || (m[t] == CAP && sum >= CAP && (k > 64 ==> sum >= CAP + 2.0 * Quotient(1.0, r)))
      || (m[t] >= Quotient(k as real, r) && (sum >= CAP + m[t] || sum >= r))
  {
    var m := FrameGrams(words, root);
    var keys := OfOrder(m, WIDEST);
    var f := (u: string) => Value(m, u);
    FrameValue(words, root, t);
    SumSplit(keys, f, t);
    SumNonnegative(keys - {t}, f);
    ShareIsQuotient(w, t, root);
    WeightBoundsShare(words, w, t, root);
    StepsReachRoot(|w| + 2, WIDEST, root);
    if m[t] == CAP {
      if Count(Pad(w), t) > 64 {
        InnerCount(w, t);
        MarkedGrams(words, w, t, root);
      }
    } else if u :| u in keys && m[u] == CAP {
      SumSplit(keys - {t}, f, u);
      SumNonnegative(keys - {t} - {u}, f);
    } else {
      forall u | u in keys
        ensures Share(w, u, root) <= Value(m, u)
      {
        FrameValue(words, root, u);
        WeightBoundsShare(words, w, u, root);
      }
      SumMonotone(keys, u => Share(w, u, root), f);
      SharesSum(words, w, WIDEST, root);
    }
  }

  /** Every word of the frame may be spelled: its n-grams are allowed as often as it holds them. */
  lemma {:induction false} AllowanceSuffices(words: seq<string>, w: string, t: string, root: nat -> real)
    requires SquareRoots(root) && w in words && Plain(w) && |w| <= LONGEST_RESTORED
    requires |t| == WIDEST && t[0] != '^' && Count(Pad(w), t) > 0
    ensures t in FrameGrams(words, root)
    ensures Allowed(FrameGrams(words, root), t) >= Count(Pad(w), t)
  {
    var m, k, n := FrameGrams(words, root), Count(Pad(w), t), |w|;
    InnerCount(w, t);
    CountAtMost(Pad(w), t);
    SumReaches(words, w, t, root);
    SquareOfRoot(n - 1, root);
    StepsReachRoot(n + 2, WIDEST, root);
    AllowanceByCase(Value(m, t), OrderSum(m, WIDEST), k, n, root(n - 1));
  }

  lemma AllowanceByCase(value: real, sum: real, k: nat, n: nat, r: real)
    requires 3 <= n <= LONGEST_RESTORED && r > 0.0 && Squared(r) == (n - 1) as real
    requires 1 <= k <= n - 1 && (k > 64 ==> k <= n - 3)
    requires
      || (value == CAP && sum >= CAP && (k > 64 ==> sum >= CAP + 2.0 * Quotient(1.0, r)))
      || (value >= Quotient(k as real, r) && (sum >= CAP + value || sum >= r))
    ensures AllowedBy(value, sum) >= k
  {
    if value == CAP && sum >= CAP && (k > 64 ==> sum >= CAP + 2.0 * Quotient(1.0, r)) {
      CappedCase(sum, k, r, n);
    } else if sum >= CAP + value {
      OtherCappedCase(value, sum, k, r, n - 1);
    } else {
      UncappedCase(value, sum, k, r);
    }
    RoundReaches(value * sum, k);
  }

  /** A word's first and last n-grams add to the sum beside a repeated one. */
  lemma {:induction false} MarkedGrams(words: seq<string>, w: string, t: string, root: nat -> real)
    requires SquareRoots(root) && w in words && Plain(w) && 5 <= |w| <= LONGEST_RESTORED
    requires |t| == WIDEST && t in FrameGrams(words, root) && Count(Pad(w), t) > 1 && t[0] != '^'
    requires FrameGrams(words, root)[t] == CAP
    ensures OrderSum(FrameGrams(words, root), WIDEST) >= CAP + 2.0 * Quotient(1.0, root(|w| - 1))
  {
    var m, p, n := FrameGrams(words, root), Pad(w), |w|;
    var first, last := Gram(p, 0, WIDEST), Gram(p, n - 2, WIDEST);
    assert first[0] == '^' && last[3] == '$' && last[0] == w[n - 3];
    InnerCount(w, t);
    assert last[0] != '^';
    PresentGram(words, w, 0, root);
    PresentGram(words, w, n - 2, root);
    var keys := OfOrder(m, WIDEST);
    var f := (u: string) => Value(m, u);
    SumSplit(keys, f, t);
    SumSplit(keys - {t}, f, first);
    SumSplit(keys - {t} - {first}, f, last);
    FrameValue(words, root, t);
    SumNonnegative(keys - {t} - {first} - {last}, f);
  }

  /** Any n-gram a word holds has at least the value one occurrence adds. */
  lemma {:induction false} PresentGram(words: seq<string>, w: string, i: nat, root: nat -> real)
    requires SquareRoots(root) && w in words && 2 <= |w| && i + WIDEST <= |w| + 2
    ensures Gram(Pad(w), i, WIDEST) in FrameGrams(words, root)
    ensures Value(FrameGrams(words, root), Gram(Pad(w), i, WIDEST)) >= Quotient(1.0, root(|w| - 1))
  {
    var p := Pad(w);
    var t := Gram(p, i, WIDEST);
    OccursAt(p, i, WIDEST);
    FrameValue(words, root, t);
    WeightBoundsShare(words, w, t, root);
    StepsReachRoot(|p|, WIDEST, root);
    StepNonnegative(|p|, WIDEST, root);
    RepeatedIsProduct(Count(p, t) - 1, Step(|p|, WIDEST, root));
    SquareOfRoot(|w| - 1, root);
    RootBounds(root(|w| - 1), |w| - 1);
    QuotientAtMostOne(root(|w| - 1));
  }

  lemma QuotientAtMostOne(r: real)
    requires r >= 1.0
    ensures 0.0 < Quotient(1.0, r) <= 1.0
  {
    assert 1.0 / r * r == 1.0;
  }
}
