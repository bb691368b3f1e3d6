/**
 The character n-grams of a word and the values a frame gives them.

 A word padded with `^` and `$` adds 1/sqrt(c) to the value of each of its n-grams per occurrence, c the
 number of n-grams of that order it has; a value never exceeds a cap. Reals stand for floats, and the square
 root is a parameter.
 */
module NgramFeatures {
  import opened SetSums
  import opened StableSort

  const ORDERS: seq<nat> := [1, 2, 3, 4]
  const WIDEST: nat := 4
  const CAP: real := 8.0

  type Grams = map<string, real>

  function Squared(x: real): real { x * x }

  ghost predicate SquareRoots(root: nat -> real) {
    forall c: nat {:trigger Squared(root(c))} :: root(c) >= 0.0 && Squared(root(c)) == c as real
  }

  function Pad(word: string): string { "^" + word + "$" }

  /** A word the padding marks cannot be confused with. */
  predicate Plain(word: string) { word != "" && '^' !in word && '$' !in word }

  /** The n-gram of an order at a position. */
  function Gram(s: string, i: nat, order: nat): string
    requires i + order <= |s|
  {
    s[i..i + order]
  }

  /** How often `t` occurs in `s`. */
  function Count(s: string, t: string): nat {
    if |s| < |t| || s == "" then 0
    else (if s[..|t|] == t then 1 else 0) + Count(s[1..], t)
  }

  function Value(m: Grams, t: string): real { if t in m then m[t] else 0.0 }

  function Min(a: real, b: real): real { if a <= b then a else b }

  /** The n-grams a word of this padded length has of an order. */
  function Positions(length: nat, order: nat): nat { if order <= length then length - order + 1 else 0 }

  /** Division where the program divides; 0 for the divisor it never meets. */
  function Quotient(a: real, r: real): real { if r == 0.0 then 0.0 else a / r }

  /** What one occurrence adds. */
  function Step(length: nat, order: nat, root: nat -> real): real { Quotient(1.0, root(Positions(length, order))) }

  /** `step` added up `count` times: their product. */
  function Repeated(count: nat, step: real): real {
    if count == 0 then 0.0 else Repeated(count - 1, step) + step
  }

  lemma {:induction false} RepeatedIsProduct(count: nat, step: real)
    ensures Repeated(count, step) == count as real * step
    ensures step >= 0.0 ==> Repeated(count, step) >= 0.0
  {
    if count > 0 {
      RepeatedIsProduct(count - 1, step);
      var less := (count - 1) as real;
      assert (less + 1.0) * step == less * step + step;
    }
  }

  function AddGram(m: Grams, t: string, step: real): Grams {
    m[t := Min(CAP, Value(m, t) + step)]
  }

  function AddOrder(m: Grams, s: string, order: nat, step: real): Grams
    requires order > 0
    decreases |s|
  {
    if |s| < order then m else AddOrder(AddGram(m, s[..order], step), s[1..], order, step)
  }

  function AddOrders(m: Grams, padded: string, orders: seq<nat>, root: nat -> real): Grams
    requires forall k :: 0 <= k < |orders| ==> orders[k] > 0
    decreases |orders|
  {
    if orders == [] then m
    else AddOrders(AddOrder(m, padded, orders[0], Step(|padded|, orders[0], root)), padded, orders[1..], root)
  }

  /** The features with one more word's n-grams. */
  function AddWord(m: Grams, word: string, root: nat -> real): Grams {
    if word == "" then m else AddOrders(m, Pad(word), ORDERS, root)
  }

  /** The n-grams of a frame that spells these words under one label. */
  function FrameGrams(words: seq<string>, root: nat -> real): Grams {
    if words == [] then map[]
    else AddWord(FrameGrams(words[..|words| - 1], root), words[|words| - 1], root)
  }

  /** `_characters`: the loops that add a word's n-grams to the features. */
  method Characters(features: Grams, word: string, root: nat -> real) returns (result: Grams)
    requires SquareRoots(root)
    ensures result == AddWord(features, word, root)
  {
    result := features;
    if word == "" {
      return;
    }
    var padded := Pad(word);
    for k := 0 to |ORDERS|
      invariant AddOrders(result, padded, ORDERS[k..], root) == AddWord(features, word, root)
    {
      result := CharactersOf(result, padded, ORDERS[k], root);
    }
  }

  /** The inner loop: the n-grams of one order, each adding the same. */
  method CharactersOf(features: Grams, padded: string, order: nat, root: nat -> real) returns (result: Grams)
    requires SquareRoots(root) && order > 0
    ensures result == AddOrder(features, padded, order, Step(|padded|, order, root))
  {
    result := features;
    var count := |padded| - order + 1;
    ghost var step := Step(|padded|, order, root);
    assert padded[0..] == padded;
    for index := 0 to if count > 0 then count else 0
      invariant AddOrder(features, padded, order, step) == AddOrder(result, padded[index..], order, step)
    {
      assert Squared(root(count as nat)) != 0.0;
      assert padded[index..][..order] == padded[index..index + order] && padded[index..][1..] == padded[index + 1..];
      result := result[padded[index..index + order] :=
        Min(CAP, Value(result, padded[index..index + order]) + 1.0 / root(count))];
    }
  }

  /** What `words` give `t` before the cap. */
  function Share(word: string, t: string, root: nat -> real): real {
    if word == "" then 0.0 else Repeated(Count(Pad(word), t), Step(|word| + 2, |t|, root))
  }

  function Weight(words: seq<string>, t: string, root: nat -> real): real {
    if words == [] then 0.0
    else Weight(words[..|words| - 1], t, root) + Share(words[|words| - 1], t, root)
  }

  ghost predicate Capped(m: Grams) { forall t :: t in m ==> 0.0 <= m[t] <= CAP }

  lemma {:induction false} AddOrderValue(m: Grams, s: string, order: nat, step: real, t: string)
    requires order > 0 && step >= 0.0 && Capped(m)
    ensures Capped(AddOrder(m, s, order, step))
    ensures Value(AddOrder(m, s, order, step), t)
         == if |t| == order then Min(CAP, Value(m, t) + Repeated(Count(s, t), step)) else Value(m, t)
    ensures t in AddOrder(m, s, order, step) <==> t in m || (|t| == order && Count(s, t) > 0)
    decreases |s|
  {
    if |s| >= order {
      AddOrderValue(AddGram(m, s[..order], step), s[1..], order, step, t);
      RepeatedIsProduct(Count(s[1..], t), step);
    }
  }


  lemma StepNonnegative(length: nat, order: nat, root: nat -> real)
    requires SquareRoots(root)
    ensures Step(length, order, root) >= 0.0
  {
    assert Squared(root(Positions(length, order))) >= 0.0;
  }

  lemma {:induction false} OneOrderValue(m: Grams, p: string, order: nat, root: nat -> real, t: string)
    requires order > 0 && SquareRoots(root) && Capped(m)
    ensures Capped(OneOrder(m, p, order, root))
    ensures Value(OneOrder(m, p, order, root), t)
         == if |t| == order then Min(CAP, Value(m, t) + Repeated(Count(p, t), Step(|p|, order, root))) else Value(m, t)
    ensures t in OneOrder(m, p, order, root) <==> t in m || (|t| == order && Count(p, t) > 0)
  {
    StepNonnegative(|p|, order, root);
    AddOrderValue(m, p, order, Step(|p|, order, root), t);
  }

  lemma {:induction false} AddWordValue(m: Grams, word: string, root: nat -> real, t: string)
    requires SquareRoots(root) && Capped(m)
    ensures Capped(AddWord(m, word, root))
    ensures Value(AddWord(m, word, root), t)
         == if 1 <= |t| <= WIDEST then Min(CAP, Value(m, t) + Share(word, t, root)) else Value(m, t)
    ensures t in AddWord(m, word, root) <==> t in m || (word != "" && 1 <= |t| <= WIDEST && Count(Pad(word), t) > 0)
  {
    if word != "" {
      var p := Pad(word);
      var m1 := OneOrder(m, p, 1, root);
      var m2 := OneOrder(m1, p, 2, root);
      var m3 := OneOrder(m2, p, 3, root);
      OneOrderValue(m, p, 1, root, t);
      OneOrderValue(m1, p, 2, root, t);
      OneOrderValue(m2, p, 3, root, t);
      OneOrderValue(m3, p, 4, root, t);
      FourOrders(m, p, root);
    }
  }

  function OneOrder(m: Grams, p: string, order: nat, root: nat -> real): Grams
    requires order > 0
  {
    AddOrder(m, p, order, Step(|p|, order, root))
  }

  lemma {:induction false} FourOrders(m: Grams, p: string, root: nat -> real)
    ensures AddOrders(m, p, ORDERS, root)
         == OneOrder(OneOrder(OneOrder(OneOrder(m, p, 1, root), p, 2, root), p, 3, root), p, 4, root)
  {
    NextOrder(m, p, 1, [2, 3, 4], root);
    NextOrder(OneOrder(m, p, 1, root), p, 2, [3, 4], root);
    NextOrder(OneOrder(OneOrder(m, p, 1, root), p, 2, root), p, 3, [4], root);
    NextOrder(OneOrder(OneOrder(OneOrder(m, p, 1, root), p, 2, root), p, 3, root), p, 4, [], root);
    assert [1] + [2, 3, 4] == ORDERS && [2] + [3, 4] == [2, 3, 4] && [3] + [4] == [3, 4] && [4] + [] == [4];
  }

  lemma {:induction false} NextOrder(m: Grams, p: string, order: nat, later: seq<nat>, root: nat -> real)
    requires order > 0 && forall k :: 0 <= k < |later| ==> later[k] > 0
    ensures AddOrders(m, p, [order] + later, root) == AddOrders(OneOrder(m, p, order, root), p, later, root)
  {
    var orders := [order] + later;
    assert orders[1..] == later;
    assert forall k :: 0 <= k < |orders| ==> orders[k] > 0;
  }

  lemma {:induction false} ShareNonnegative(word: string, t: string, root: nat -> real)
    requires SquareRoots(root)
    ensures Share(word, t, root) >= 0.0
  {
    StepNonnegative(|word| + 2, |t|, root);
    RepeatedIsProduct(Count(Pad(word), t), Step(|word| + 2, |t|, root));
  }

  lemma {:induction false} WeightNonnegative(words: seq<string>, t: string, root: nat -> real)
    requires SquareRoots(root)
    ensures Weight(words, t, root) >= 0.0
    decreases |words|
  {
    if words != [] {
      WeightNonnegative(words[..|words| - 1], t, root);
      ShareNonnegative(words[|words| - 1], t, root);
    }
  }

  /** A frame's value of an n-gram is what its words give it together, up to the cap. */
  lemma {:induction false} FrameValue(words: seq<string>, root: nat -> real, t: string)
    requires SquareRoots(root)
    ensures Capped(FrameGrams(words, root))
    ensures 1 <= |t| <= WIDEST ==> Value(FrameGrams(words, root), t) == Min(CAP, Weight(words, t, root))
    ensures t in FrameGrams(words, root)
       <==> 1 <= |t| <= WIDEST && exists w :: w in words && w != "" && Count(Pad(w), t) > 0
    decreases |words|
  {
    if words != [] {
      var front, last := words[..|words| - 1], words[|words| - 1];
      FrameValue(front, root, t);
      AddWordValue(FrameGrams(front, root), last, root, t);
      WeightNonnegative(front, t, root);
      ShareNonnegative(last, t, root);
      assert words == front + [last];
    }
  }

  lemma {:induction false} WeightBoundsShare(words: seq<string>, w: string, t: string, root: nat -> real)
    requires SquareRoots(root) && w in words
    ensures Weight(words, t, root) >= Share(w, t, root)
    decreases |words|
  {
    var front, last := words[..|words| - 1], words[|words| - 1];
    assert words == front + [last];
    ShareNonnegative(last, t, root);
    WeightNonnegative(front, t, root);
    if w != last {
      WeightBoundsShare(front, w, t, root);
    }
  }

  /** The order of the words does not matter. */
  lemma {:induction false} WeightSplit(words: seq<string>, i: nat, t: string, root: nat -> real)
    requires i < |words|
    ensures Weight(words, t, root) == Weight(words[..i] + words[i + 1..], t, root) + Share(words[i], t, root)
    decreases |words|
  {
    var last := |words| - 1;
    if i == last {
      assert words[..i] + words[i + 1..] == words[..last];
    } else {
      WeightSplit(words[..last], i, t, root);
      var without := words[..i] + words[i + 1..];
      assert words[..last][..i] + words[..last][i + 1..] == without[..last - 1];
      assert without[last - 1] == words[last];
    }
  }

  /** Where the last of some words is among the same words in another order. */
  lemma PlaceAmong(a: seq<string>, b: seq<string>) returns (i: nat)
    requires multiset(a) == multiset(b) && a != []
    ensures i < |b| && b[i] == a[|a| - 1] && multiset(a[..|a| - 1]) == multiset(b[..i] + b[i + 1..])
  {
    assert a == a[..|a| - 1] + [a[|a| - 1]];
    assert a[|a| - 1] in multiset(b);
    i := PlaceOf(b, a[|a| - 1]);
    WithoutRemoves(b, i);
  }

  lemma {:induction false} WeightPermutes(a: seq<string>, b: seq<string>, t: string, root: nat -> real)
    requires multiset(a) == multiset(b)
    ensures Weight(a, t, root) == Weight(b, t, root)
    decreases |a|
  {
    if a == [] {
      assert |multiset(b)| == 0;
    } else {
      var front, last := a[..|a| - 1], a[|a| - 1];
      var i := PlaceAmong(a, b);
      hide Share;
      WeightPermutes(front, b[..i] + b[i + 1..], t, root);
      WeightSplit(b, i, t, root);
    }
  }

  lemma {:induction false} FramePermutes(a: seq<string>, b: seq<string>, root: nat -> real)
    requires SquareRoots(root) && multiset(a) == multiset(b)
    ensures FrameGrams(a, root) == FrameGrams(b, root)
  {
    assert forall w :: w in a <==> w in multiset(a);
    assert forall w :: w in b <==> w in multiset(b);
    forall t
      ensures t in FrameGrams(a, root) <==> t in FrameGrams(b, root)
      ensures t in FrameGrams(a, root) ==> FrameGrams(a, root)[t] == FrameGrams(b, root)[t]
    {
      FrameValue(a, root, t);
      FrameValue(b, root, t);
      WeightPermutes(a, b, t, root);
    }
  }

  // ---- the sum of an order

  ghost function OfOrder(m: Grams, order: nat): set<string> { set t | t in m && |t| == order }

  /** The total value of an order's n-grams. */
  ghost function OrderSum(m: Grams, order: nat): real { SumOver(OfOrder(m, order), t => Value(m, t)) }

  /** The occurrences of all n-grams of an order are its positions: what they add sums to one step per position. */
  lemma {:induction false} CountsAddUp(s: string, order: nat, keys: set<string>, step: real, f: string -> real)
    requires order > 0
    requires forall t :: t in keys ==> |t| == order && f(t) == Repeated(Count(s, t), step)
    requires forall i: nat :: i + order <= |s| ==> Gram(s, i, order) in keys
    ensures SumOver(keys, f) == Repeated(Positions(|s|, order), step)
    decreases |s|
  {
    if |s| < order {
      SumZero(keys, f);
    } else {
      assert Gram(s, 0, order) in keys;
      var here := (t: string) => if t == s[..order] then step else 0.0;
      var later := (t: string) => Repeated(Count(s[1..], t), step);
      LaterGrams(s, order, keys);
      CountsAddUp(s[1..], order, keys, step, later);
      SumIndicator(keys, s[..order], step, here);
      SumAdds(keys, here, later, f);
    }
  }

  lemma LaterGrams(s: string, order: nat, keys: set<string>)
    requires order > 0 && s != "" && forall i: nat :: i + order <= |s| ==> Gram(s, i, order) in keys
    ensures forall i: nat :: i + order <= |s[1..]| ==> Gram(s[1..], i, order) in keys
  {
    forall i: nat | i + order <= |s[1..]|
      ensures Gram(s[1..], i, order) in keys
    {
      assert Gram(s[1..], i, order) == Gram(s, i + 1, order);
    }
  }

  lemma {:induction false} OccursAt(s: string, i: nat, order: nat)
    requires order > 0 && i + order <= |s|
    ensures Count(s, Gram(s, i, order)) > 0
    decreases i
  {
    if i > 0 {
      OccursAt(s[1..], i - 1, order);
      assert Gram(s[1..], i - 1, order) == Gram(s, i, order);
    }
  }

  /** The shares a word gives the n-grams of an order sum to sqrt(c). */
  lemma {:induction false} SharesSum(words: seq<string>, w: string, order: nat, root: nat -> real)
    requires SquareRoots(root) && w in words && w != "" && 1 <= order <= WIDEST && order <= |w| + 2
    ensures SumOver(OfOrder(FrameGrams(words, root), order), t => Share(w, t, root)) == root(Positions(|w| + 2, order))
  {
    var m, p, c := FrameGrams(words, root), Pad(w), Positions(|w| + 2, order);
    var keys := OfOrder(m, order);
    forall i: nat | i + order <= |p|
      ensures Gram(p, i, order) in keys
    {
      OccursAt(p, i, order);
      FrameValue(words, root, Gram(p, i, order));
    }
    var step := Step(|p|, order, root);
    var shares := (t: string) => Share(w, t, root);
    CountsAddUp(p, order, keys, step, shares);
    SumCongruent(keys, shares, t => Share(w, t, root));
    StepsReachRoot(|p|, order, root);
  }

  lemma StepsReachRoot(length: nat, order: nat, root: nat -> real)
    requires SquareRoots(root) && order <= length
    ensures root(Positions(length, order)) > 0.0
    ensures Repeated(Positions(length, order), Step(length, order, root)) == root(Positions(length, order))
  {
    var c := Positions(length, order);
    var r := root(c);
    assert Squared(r) == c as real;
    RepeatedIsProduct(c, 1.0 / r);
    SquareOverRoot(r, c as real);
  }

  lemma SquareOverRoot(r: real, square: real)
    requires r > 0.0 && r * r == square
    ensures square * (1.0 / r) == r
  {
    assert r * (1.0 / r) == 1.0;
    assert r * r * (1.0 / r) == r * (r * (1.0 / r));
  }
}
