/**
 What the values of one word's n-grams tell: a word whose values are as close as the comparison allows has the same
 length, and each n-gram as often.
 */
module NgramTelling {
  import opened NgramFeatures
  import opened NgramAllowance
  import opened NgramSearch
  import opened SetSums

  /** The relative tolerance of the comparison. */
  const TOLERANCE: real := 0.000000001

  /** The longest words none of whose n-grams reaches the cap. */
  const LONGEST_TOLD: nat := 62

  function Absolute(x: real): real { if x < 0.0 then -x else x }

  /** `math.isclose` with its default relative tolerance. */
  predicate IsClose(a: real, b: real) {
    Absolute(a - b) <= TOLERANCE * (if Absolute(a) < Absolute(b) then Absolute(b) else Absolute(a))
  }

  predicate Matches(spelt: Grams, grams: Grams) {
    spelt.Keys == grams.Keys && forall t :: t in grams ==> IsClose(spelt[t], grams[t])
  }

  /** Each n-gram of the orders used occurs as often in one padded word as in the other. */
  ghost predicate SameGrams(v: string, w: string) {
    |v| == |w| && forall t :: 1 <= |t| <= WIDEST ==> Count(Pad(v), t) == Count(Pad(w), t)
  }

  // ---- sums of close values are close

  lemma CloseWithin(a: real, b: real)
    requires a >= 0.0 && b >= 0.0 && IsClose(a, b)
    ensures a - b <= TOLERANCE * (a + b) && b - a <= TOLERANCE * (a + b)
  {}

  lemma {:induction false} SumsWithin(keys: set<string>, f: string -> real, g: string -> real)
    requires forall t :: t in keys ==> f(t) >= 0.0 && g(t) >= 0.0 && IsClose(f(t), g(t))
    ensures SumOver(keys, f) - SumOver(keys, g) <= TOLERANCE * (SumOver(keys, f) + SumOver(keys, g))
    ensures SumOver(keys, g) - SumOver(keys, f) <= TOLERANCE * (SumOver(keys, f) + SumOver(keys, g))
    decreases |keys|
  {
    if t :| t in keys {
      SumSplit(keys, f, t);
      SumSplit(keys, g, t);
      CloseWithin(f(t), g(t));
      SumsWithin(keys - {t}, f, g);
    }
  }

  // ---- roots of different integers are far apart

  lemma SquareDifference(a: real, b: real)
    ensures (a - b) * (a + b) == Squared(a) - Squared(b)
  {}

  lemma NegativeProduct(a: real, b: real)
    requires a <= 0.0 && b >= 0.0
    ensures a * b <= 0.0
  {}

  lemma NotFarApart(difference: real, sum: real, product: real)
    requires product == difference * sum && 0.0 <= sum <= 16.0 && difference <= TOLERANCE * sum
    ensures product < 1.0
  {
    if difference > 0.0 {
      ProductAtLeast(TOLERANCE * 16.0, 16.0, difference, sum);
    } else {
      NegativeProduct(difference, sum);
    }
  }

  lemma CloseRoots(a: nat, b: nat, root: nat -> real)
    requires SquareRoots(root) && a <= 64 && b <= 64
    requires root(a) - root(b) <= TOLERANCE * (root(a) + root(b))
    ensures a <= b
  {
    SquareOfRoot(a, root);
    SquareOfRoot(b, root);
    SquareOrder(root(a), 8.0);
    SquareOrder(root(b), 8.0);
    SquareDifference(root(a), root(b));
    NotFarApart(root(a) - root(b), root(a) + root(b), Squared(root(a)) - Squared(root(b)));
  }

  // ---- close values of two words

  lemma OneWordSums(w: string, root: nat -> real)
    requires SquareRoots(root) && 1 <= |w| <= LONGEST_TOLD
    ensures OrderSum(FrameGrams([w], root), 1) == root(|w| + 2)
    ensures forall t :: t in FrameGrams([w], root) ==> Value(FrameGrams([w], root), t) >= 0.0
  {
    OneWordSum(w, 1, root);
    FrameValue([w], root, "a");
  }

  lemma SameLength(v: string, w: string, root: nat -> real)
    requires SquareRoots(root) && 1 <= |v| <= LONGEST_TOLD && 1 <= |w| <= LONGEST_TOLD
    requires Matches(FrameGrams([v], root), FrameGrams([w], root))
    ensures |v| == |w|
  {
    var m, n := FrameGrams([v], root), FrameGrams([w], root);
    OneWordSums(v, root);
    OneWordSums(w, root);
    var f, g := (t: string) => Value(m, t), (t: string) => Value(n, t);
    assert OfOrder(m, 1) == OfOrder(n, 1);
    assert OrderSum(m, 1) == SumOver(OfOrder(m, 1), f) && OrderSum(n, 1) == SumOver(OfOrder(m, 1), g);
    SumsWithin(OfOrder(m, 1), f, g);
    CloseRoots(|v| + 2, |w| + 2, root);
    CloseRoots(|w| + 2, |v| + 2, root);
  }

  lemma QuotientsApart(j: nat, k: nat, r: real)
    requires r > 0.0 && j <= 64 && k <= 64 && IsClose(Quotient(j as real, r), Quotient(k as real, r))
    ensures j <= k
  {
    var a, b := Quotient(j as real, r), Quotient(k as real, r);
    QuotientTimes(j as real, r);
    QuotientTimes(k as real, r);
    PositiveQuotient(j, r);
    PositiveQuotient(k, r);
    CloseWithin(a, b);
    WithinScaled(a, b, r, j as real, k as real);
  }

  lemma PositiveQuotient(k: nat, r: real)
    requires r > 0.0
    ensures Quotient(k as real, r) >= 0.0
  {}

  lemma WithinScaled(a: real, b: real, r: real, x: real, y: real)
    requires r > 0.0 && x == a * r && y == b * r && a - b <= TOLERANCE * (a + b)
    ensures x - y <= TOLERANCE * (x + y)
  {
    Distributes(TOLERANCE - 1.0, TOLERANCE + 1.0, a, b, r);
    NotNegativeProduct((TOLERANCE - 1.0) * a + (TOLERANCE + 1.0) * b, r);
  }

  lemma NotNegativeProduct(a: real, b: real)
    requires a >= 0.0 && b > 0.0
    ensures a * b >= 0.0
  {}

  lemma Distributes(p: real, q: real, a: real, b: real, r: real)
    ensures (p * a + q * b) * r == p * (a * r) + q * (b * r)
  {}

  lemma CloseIsSame(j: nat, k: nat, r: real, a: real, b: real)
    requires r > 0.0 && j <= 64 && k <= 64 && a == Quotient(j as real, r) && b == Quotient(k as real, r) && IsClose(a, b)
    ensures j == k
  {
    QuotientsApart(j, k, r);
    IsCloseEitherWay(a, b);
    QuotientsApart(k, j, r);
  }

  lemma {:induction false} SameCount(v: string, w: string, t: string, root: nat -> real)
    requires SquareRoots(root) && 1 <= |v| == |w| <= LONGEST_TOLD && 1 <= |t| <= WIDEST
    requires Matches(FrameGrams([v], root), FrameGrams([w], root))
    ensures Count(Pad(v), t) == Count(Pad(w), t)
  {
    var m, n := FrameGrams([v], root), FrameGrams([w], root);
    FrameValue([v], root, t);
    FrameValue([w], root, t);
    CountAtMost(Pad(v), t);
    CountAtMost(Pad(w), t);
    if t in n {
      hide FrameGrams, Share, IsClose, Quotient, Count, Pad;
      StepsReachRoot(|w| + 2, |t|, root);
      OneWordValue(v, t, root);
      OneWordValue(w, t, root);
      CloseIsSame(Count(Pad(v), t), Count(Pad(w), t), root(Positions(|w| + 2, |t|)), m[t], n[t]);
    }
  }

  lemma IsCloseEitherWay(a: real, b: real)
    requires IsClose(a, b)
    ensures IsClose(b, a)
  {}

  /** Words with close values have the same n-grams. */
  lemma MatchIsSame(v: string, w: string, root: nat -> real)
    requires SquareRoots(root) && 1 <= |v| <= LONGEST_TOLD && 1 <= |w| <= LONGEST_TOLD
    requires Matches(FrameGrams([v], root), FrameGrams([w], root))
    ensures SameGrams(v, w)
  {
    SameLength(v, w, root);
    forall t | 1 <= |t| <= WIDEST ensures Count(Pad(v), t) == Count(Pad(w), t) {
      SameCount(v, w, t, root);
    }
  }

  // ---- how long a candidate is

  lemma {:induction false} WalkEnds(allowed: map<string, int>, longest: int, p: string, m: nat, used: multiset<string>)
    requires WIDEST <= m < |p| && Walk(allowed, longest, p, m, used)
    ensures |p| == m + 1 || |p| <= longest + 2
    decreases |p| - m
  {
    var t := p[m - 3..m + 1];
    if t[3] != '$' { WalkEnds(allowed, longest, p, m + 1, used + multiset{t}); }
  }

  lemma {:induction false} CandidateIsBounded(m: Grams, longest: int, v: string, words: seq<string>, root: nat -> real)
    requires SquareRoots(root) && m == FrameGrams(words, root) && IsCandidate(AllowedMap(m), longest, v)
    ensures 1 <= |v| && (|v| <= 3 || |v| <= longest)
  {
    if v != "" && Pad(v) in AllowedMap(m) {
      FrameValue(words, root, Pad(v));
    } else {
      WalkEnds(AllowedMap(m), longest, Pad(v), WIDEST, multiset{Pad(v)[..WIDEST]});
    }
  }

  // ---- how often an n-gram occurs

  predicate OccursHere(s: string, t: string, i: nat) { i + |t| <= |s| && s[i..i + |t|] == t }

  /** The places where an n-gram occurs. */
  ghost function Occurrences(s: string, t: string): set<nat> { set i: nat | i <= |s| && OccursHere(s, t, i) }

  function Shifted(places: set<nat>): set<nat> { set i | i in places :: i + 1 }

  lemma ShiftedMore(places: set<nat>, i: nat)
    ensures Shifted(places + {i}) == Shifted(places) + {i + 1}
    ensures i !in places ==> i + 1 !in Shifted(places)
  {
    assert i in places + {i};
  }

  lemma {:induction false} ShiftedSize(places: set<nat>)
    ensures |Shifted(places)| == |places|
    decreases |places|
  {
    if i :| i in places {
      ShiftedSize(places - {i});
      assert places == places - {i} + {i};
      ShiftedMore(places - {i}, i);
    }
  }

  lemma OccursLater(s: string, t: string, j: nat)
    requires s != ""
    ensures OccursHere(s, t, j + 1) <==> OccursHere(s[1..], t, j)
  {
    if j + 1 + |t| <= |s| { assert s[j + 1..j + 1 + |t|] == s[1..][j..j + |t|]; }
  }

  lemma InShifted(places: set<nat>, j: nat)
    ensures j + 1 in Shifted(places) <==> j in places
  {}

  lemma OccurrencesLater(s: string, t: string)
    requires s != "" && t != ""
    ensures Occurrences(s, t) == Shifted(Occurrences(s[1..], t)) + if |t| <= |s| && s[..|t|] == t then {0} else {}
  {
    forall i: nat ensures i in Occurrences(s, t) <==> i in Shifted(Occurrences(s[1..], t)) || (i == 0 && |t| <= |s| && s[..|t|] == t) {
      if i > 0 {
        OccursLater(s, t, i - 1);
        InShifted(Occurrences(s[1..], t), i - 1);
      }
    }
  }

  /** The count is the number of places where the n-gram occurs. */
  lemma {:induction false} CountIsOccurrences(s: string, t: string)
    requires t != ""
    ensures Count(s, t) == |Occurrences(s, t)|
    decreases |s|
  {
    if |s| < |t| || s == "" {
      assert Occurrences(s, t) == {};
    } else {
      CountIsOccurrences(s[1..], t);
      OccurrencesLater(s, t);
      ShiftedSize(Occurrences(s[1..], t));
    }
  }
}
