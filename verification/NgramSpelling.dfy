/**
 Words spelled back from their n-grams: `spelled` of compare_context_candidates.py, and when it succeeds.
 */
module NgramSpelling {
  import opened NgramFeatures
  import opened NgramAllowance
  import opened NgramSearch
  import opened NgramTelling
  import opened SetSums
  import opened Wrappers

  // ---- the combinations tried

  function PrefixAll(x: string, rest: seq<seq<string>>): (r: seq<seq<string>>)
    ensures |r| == |rest|
    ensures forall k :: 0 <= k < |r| ==> r[k] == [x] + rest[k]
  {
    seq(|rest|, k requires 0 <= k < |rest| => [x] + rest[k])
  }

  /** `itertools.combinations_with_replacement`, in its order. */
  function Combinations(pool: seq<string>, size: nat): seq<seq<string>>
    decreases |pool| + size
  {
    if size == 0 then [[]]
    else if pool == [] then []
    else PrefixAll(pool[0], Combinations(pool, size - 1)) + Combinations(pool[1..], size)
  }

  lemma {:induction false} CombinationsDrawFromPool(pool: seq<string>, size: nat, c: seq<string>)
    requires c in Combinations(pool, size)
    ensures |c| == size
    ensures forall w :: w in c ==> w in pool
    decreases |pool| + size
  {
    if size > 0 {
      var first := PrefixAll(pool[0], Combinations(pool, size - 1));
      if c in first {
        var k :| 0 <= k < |first| && first[k] == c;
        CombinationsDrawFromPool(pool, size - 1, Combinations(pool, size - 1)[k]);
      } else {
        CombinationsDrawFromPool(pool[1..], size, c);
      }
    }
  }

  /** Any words of the pool are tried, in some order. */
  lemma {:induction false} CombinationsCover(pool: seq<string>, words: seq<string>) returns (c: seq<string>)
    requires forall w :: w in words ==> w in pool
    ensures c in Combinations(pool, |words|) && multiset(c) == multiset(words)
    decreases |pool| + |words|
  {
    if words == [] {
      c := [];
    } else {
      assert words[0] in pool;
      if pool[0] in words {
        var i :| 0 <= i < |words| && words[i] == pool[0];
        var fewer := words[..i] + words[i + 1..];
        assert words == words[..i] + [words[i]] + words[i + 1..];
        var d := CombinationsCover(pool, fewer);
        var k :| 0 <= k < |Combinations(pool, |fewer|)| && Combinations(pool, |fewer|)[k] == d;
        c := [pool[0]] + d;
        assert PrefixAll(pool[0], Combinations(pool, |fewer|))[k] == c;
      } else {
        c := CombinationsCover(pool[1..], words);
      }
    }
  }

  // ---- the spelling

  /** Some words the search finds, at most `count`, have these n-grams. */
  ghost predicate Spellable(grams: Grams, count: nat, longest: int, root: nat -> real) {
    exists words :: SpelledBy(words, grams, count, longest, root)
  }

  ghost predicate SpelledBy(words: seq<string>, grams: Grams, count: nat, longest: int, root: nat -> real) {
    && 1 <= |words| <= count
    && (forall w :: w in words ==> IsCandidate(AllowedMap(grams), longest, w))
    && Matches(FrameGrams(words, root), grams)
  }

  /**
   `spelled`: words, as few as possible, whose n-grams are exactly the frame's, None only when there are none. For the
   frame of one word of at most 62 characters it is one word that holds each n-gram as often.
   */
  method Spelled(grams: Grams, count: nat, longest: int, root: nat -> real) returns (r: Option<seq<string>>)
    requires SquareRoots(root)
    ensures r.None? <==> grams != map[] && !Spellable(grams, count, longest, root)
    ensures grams == map[] ==> r == Some([])
    ensures grams != map[] && r.Some? ==> SpelledBy(r.value, grams, count, longest, root)
    ensures grams != map[] && r.Some? ==> forall words :: SpelledBy(words, grams, count, longest, root) ==> |r.value| <= |words|
    ensures forall w :: IsFrameOf(w, grams, count, longest, root) ==> r.Some? && |r.value| == 1 && SameGrams(r.value[0], w)
  {
    if grams == map[] {
      NoFrameIsEmpty(grams, count, longest, root);
      return Some([]);
    }
    var candidates := CandidateWords(grams, longest);
    var size := 1;
    while size <= count
      invariant 1 <= size <= count + 1
      invariant forall n, c :: 1 <= n < size && c in Combinations(candidates, n) ==> !Matches(FrameGrams(c, root), grams)
    {
      var words := FirstMatch(Combinations(candidates, size), grams, root);
      if words.Some? {
        CombinationsDrawFromPool(candidates, size, words.value);
        assert SpelledBy(words.value, grams, count, longest, root);
        FewerAreTried(candidates, grams, count, longest, root, size);
        OneWordIsTold(grams, count, longest, root, words.value);
        return words;
      }
      size := size + 1;
    }
    FewerAreTried(candidates, grams, count, longest, root, size);
    FramesAreSpellable(grams, count, longest, root);
    r := None;
  }

  /** If no combination of fewer words matches, no words spell the frame with fewer. */
  lemma FewerAreTried(candidates: seq<string>, grams: Grams, count: nat, longest: int, root: nat -> real, size: nat)
    requires SquareRoots(root) && forall w :: w in candidates <==> IsCandidate(AllowedMap(grams), longest, w)
    requires forall n, c :: 1 <= n < size && c in Combinations(candidates, n) ==> !Matches(FrameGrams(c, root), grams)
    ensures forall words :: SpelledBy(words, grams, count, longest, root) ==> size <= |words|
  {
    forall words | SpelledBy(words, grams, count, longest, root) ensures size <= |words| {
      if |words| < size {
        ghost var c := CombinationsCover(candidates, words);
        FramePermutes(c, words, root);
        assert false;
      }
    }
  }

  /** The frame is that of one plain word within the bounds. */
  ghost predicate IsFrameOf(w: string, grams: Grams, count: nat, longest: int, root: nat -> real) {
    Plain(w) && |w| <= longest <= LONGEST_TOLD && count >= 1 && grams == FrameGrams([w], root)
  }

  lemma NoFrameIsEmpty(grams: Grams, count: nat, longest: int, root: nat -> real)
    requires SquareRoots(root) && grams == map[]
    ensures forall w :: !IsFrameOf(w, grams, count, longest, root)
  {
    forall w | IsFrameOf(w, grams, count, longest, root) ensures false {
      FrameIsSpelled([w], count, longest, root);
    }
  }

  lemma FramesAreSpellable(grams: Grams, count: nat, longest: int, root: nat -> real)
    requires SquareRoots(root)
    ensures forall w :: IsFrameOf(w, grams, count, longest, root) ==> Spellable(grams, count, longest, root)
  {
    forall w | IsFrameOf(w, grams, count, longest, root) ensures Spellable(grams, count, longest, root) {
      FrameIsSpelled([w], count, longest, root);
    }
  }

  /** The fewest words that spell the frame of one word are one word with its n-grams. */
  lemma OneWordIsTold(grams: Grams, count: nat, longest: int, root: nat -> real, words: seq<string>)
    requires SquareRoots(root) && SpelledBy(words, grams, count, longest, root)
    requires forall others :: SpelledBy(others, grams, count, longest, root) ==> |words| <= |others|
    ensures forall w :: IsFrameOf(w, grams, count, longest, root) ==> |words| == 1 && SameGrams(words[0], w)
  {
    forall w | IsFrameOf(w, grams, count, longest, root) ensures |words| == 1 && SameGrams(words[0], w) {
      OwnWordSpells(w, grams, count, longest, root);
      assert words == [words[0]];
      CandidateIsBounded(grams, longest, words[0], [w], root);
      MatchIsSame(words[0], w, root);
    }
  }

  /** The first of some lists of words whose n-grams are the frame's. */
  method FirstMatch(tried: seq<seq<string>>, grams: Grams, root: nat -> real) returns (r: Option<seq<string>>)
    requires SquareRoots(root)
    ensures r.Some? ==> r.value in tried && Matches(FrameGrams(r.value, root), grams)
    ensures r.None? ==> forall c :: c in tried ==> !Matches(FrameGrams(c, root), grams)
  {
    for k := 0 to |tried|
      invariant forall c :: c in tried[..k] ==> !Matches(FrameGrams(c, root), grams)
    {
      assert tried[..k + 1] == tried[..k] + [tried[k]];
      var expected := WordsGrams(tried[k], root);
      if Matches(expected, grams) { return Some(tried[k]); }
    }
    assert tried[..|tried|] == tried;
    return None;
  }

  method WordsGrams(words: seq<string>, root: nat -> real) returns (m: Grams)
    requires SquareRoots(root)
    ensures m == FrameGrams(words, root)
  {
    m := map[];
    for k := 0 to |words|
      invariant m == FrameGrams(words[..k], root)
    {
      m := Characters(m, words[k], root);
      assert words[..k + 1][..k] == words[..k];
    }
    assert words[..|words|] == words;
  }

  // ---- completeness

  /** Every plain word of a frame is found, whatever the other words are, up to 69 characters. */
  lemma {:induction false} EveryWordIsFound(words: seq<string>, w: string, longest: int, root: nat -> real)
    requires SquareRoots(root) && w in words && Plain(w) && |w| <= longest && |w| <= LONGEST_RESTORED
    ensures IsCandidate(AllowedMap(FrameGrams(words, root)), longest, w)
  {
    var m, p := FrameGrams(words, root), Pad(w);
    var allowed := AllowedMap(m);
    CandidateExactly(allowed, longest, w);
    if |w| <= 2 {
      OccursAt(p, 0, |p|);
      assert Gram(p, 0, |p|) == p;
      FrameValue(words, root, p);
    } else {
      forall i: nat | i + WIDEST <= |w| + 2
        ensures Gram(p, i, WIDEST) in allowed
      {
        OccursAt(p, i, WIDEST);
        FrameValue(words, root, Gram(p, i, WIDEST));
      }
      forall t | |t| == WIDEST && t[0] != '^' && Count(p, t) > 0 && t in allowed
        ensures Count(p, t) <= allowed[t]
      {
        AllowanceSuffices(words, w, t, root);
      }
    }
  }

  /** The words of a frame as the program meets them: plain, and no longer than the bound it searches with. */
  ghost predicate FrameWords(words: seq<string>, longest: int) {
    words != [] && forall w :: w in words ==> Plain(w) && |w| <= longest
  }

  lemma CloseToItself(x: real)
    ensures IsClose(x, x)
  {}

  lemma {:induction false} OwnWordsSpell(words: seq<string>, count: nat, longest: int, root: nat -> real)
    requires SquareRoots(root) && FrameWords(words, longest) && |words| <= count && longest <= LONGEST_RESTORED
    ensures FrameGrams(words, root) != map[]
    ensures SpelledBy(words, FrameGrams(words, root), count, longest, root)
  {
    var m := FrameGrams(words, root);
    assert words[0] in words;
    var first := Gram(Pad(words[0]), 0, 1);
    OccursAt(Pad(words[0]), 0, 1);
    FrameValue(words, root, first);
    forall w | w in words
      ensures IsCandidate(AllowedMap(m), longest, w)
    {
      EveryWordIsFound(words, w, longest, root);
    }
    forall t | t in m ensures IsClose(m[t], m[t]) { CloseToItself(m[t]); }
  }

  /** Words of at most 69 characters are spelled back from their n-grams. */
  lemma {:induction false} FrameIsSpelled(words: seq<string>, count: nat, longest: int, root: nat -> real)
    requires SquareRoots(root) && FrameWords(words, longest) && |words| <= count && longest <= LONGEST_RESTORED
    ensures FrameGrams(words, root) != map[]
    ensures Spellable(FrameGrams(words, root), count, longest, root)
  {
    OwnWordsSpell(words, count, longest, root);
  }

  lemma OwnWordSpells(w: string, grams: Grams, count: nat, longest: int, root: nat -> real)
    requires SquareRoots(root) && IsFrameOf(w, grams, count, longest, root)
    ensures SpelledBy([w], grams, count, longest, root)
  {
    OwnWordsSpell([w], count, longest, root);
  }

  // ---- beyond 69 characters the cap hides a word

  function Repeat(n: nat): string { seq(n, _ => 'a') }

  lemma {:induction false} RunCount(n: nat)
    ensures Count(Repeat(n) + "$", "aaaa") == if n >= 4 then n - 3 else 0
  {
    var s := Repeat(n) + "$";
    if n >= 4 {
      assert s[..4] == "aaaa";
      assert s[1..] == Repeat(n - 1) + "$";
      RunCount(n - 1);
    } else if n == 3 {
      assert s[..4] != "aaaa" by { assert s[3] == '$'; }
      assert Count(s[1..], "aaaa") == 0;
    }
  }

  lemma {:induction false} OccurrenceIsAGram(s: string, t: string) returns (i: nat)
    requires t != "" && Count(s, t) > 0
    ensures i + |t| <= |s| && Gram(s, i, |t|) == t
    decreases |s|
  {
    if s[..|t|] == t {
      i := 0;
    } else {
      i := OccurrenceIsAGram(s[1..], t);
      assert Gram(s[1..], i, |t|) == Gram(s, i + 1, |t|);
      i := i + 1;
    }
  }

  lemma RunInside(n: nat)
    requires n >= 4
    ensures Count(Pad(Repeat(n)), "aaaa") == n - 3
  {
    assert Pad(Repeat(n)) == "^" + (Repeat(n) + "$");
    RunCount(n);
    FirstGramDiffers(Repeat(n) + "$", "aaaa");
  }

  /** Seventy equal letters: the inside n-gram occurs 67 times and is allowed 66. */
  lemma SeventyLettersAreLost(n: nat, longest: int, root: nat -> real)
    requires SquareRoots(root) && n == LONGEST_RESTORED + 1
    ensures Plain(Repeat(n)) && !IsCandidate(AllowedMap(FrameGrams([Repeat(n)], root)), longest, Repeat(n))
  {
    var w := Repeat(n);
    var m := FrameGrams([w], root);
    RunInside(n);
    FrameValue([w], root, "aaaa");
    RunIsUnderAllowed(n, root);
    CandidateExactly(AllowedMap(m), longest, w);
    FrameValue([w], root, Pad(w));
  }

  lemma RunIsUnderAllowed(n: nat, root: nat -> real)
    requires SquareRoots(root) && n == LONGEST_RESTORED + 1
    ensures Allowed(FrameGrams([Repeat(n)], root), "aaaa") <= 66
  {
    var w, t := Repeat(n), "aaaa";
    var m := FrameGrams([w], root);
    var step := Step(n + 2, WIDEST, root);
    StepsReachRoot(n + 2, WIDEST, root);
    SquareOfRoot(n - 1, root);
    StepBound(step, root(n - 1));
    var keys, f := OfOrder(m, WIDEST), (u: string) => Value(m, u);
    assert OrderSum(m, WIDEST) == SumOver(keys, f);
    var bound := (u: string) => if u == t then CAP else if u == "^aaa" then step else if u == "aaa$" then step else 0.0;
    forall u | u in keys
      ensures f(u) <= bound(u)
    {
      RunGrams(n, u, root);
    }
    SumMonotone(keys, f, bound);
    ThreeKeys(keys, bound, t, "^aaa", "aaa$", CAP, step);
    FrameValue([w], root, t);
    UnderSixtySix(Value(m, t), OrderSum(m, WIDEST), step);
  }

  lemma StepBound(step: real, r: real)
    requires r > 0.0 && Squared(r) == 69.0 && step == Quotient(1.0, r)
    ensures 0.0 <= step <= 0.125
  {
    SquareOrder(8.0, r);
    SquareOrder(r, 8.0);
    assert step * r == 1.0;
    assert r >= 8.0;
  }

  lemma UnderSixtySix(value: real, sum: real, step: real)
    requires 0.0 <= value <= CAP && sum <= CAP + 2.0 * step && 0.0 <= step <= 0.125
    ensures AllowedBy(value, sum) <= 66
  {
    assert value * sum <= CAP * (CAP + 0.25) by {
      if sum >= 0.0 {
        ProductAtLeast(CAP, CAP + 0.25, value, sum);
      } else {
        assert value * sum <= 0.0;
      }
    }
    RoundReaches(value * sum, 66);
  }

  lemma {:induction false} ThreeKeys(keys: set<string>, f: string -> real, a: string, b: string, c: string, x: real, y: real)
    requires a != b && b != c && a != c && x >= 0.0 && y >= 0.0
    requires forall u :: u in keys ==> f(u) == if u == a then x else if u == b then y else if u == c then y else 0.0
    ensures SumOver(keys, f) <= x + 2.0 * y
  {
    if a in keys { SumSplit(keys, f, a); }
    var k1 := keys - {a};
    assert a !in keys ==> k1 == keys;
    if b in k1 { SumSplit(k1, f, b); }
    var k2 := k1 - {b};
    assert b !in k1 ==> k2 == k1;
    if c in k2 { SumSplit(k2, f, c); }
    var k3 := k2 - {c};
    assert c !in k2 ==> k3 == k2;
    SumZero(k3, f);
  }

  /** The widest n-grams of the run: the inside one up to the cap, the outer two once each. */
  lemma RunGrams(n: nat, u: string, root: nat -> real)
    requires SquareRoots(root) && n >= 4 && |u| == WIDEST && u in FrameGrams([Repeat(n)], root)
    ensures u in {"aaaa", "^aaa", "aaa$"}
    ensures Value(FrameGrams([Repeat(n)], root), u) <= CAP
    ensures u != "aaaa" ==> Value(FrameGrams([Repeat(n)], root), u) <= Step(n + 2, WIDEST, root)
  {
    var w := Repeat(n);
    FrameValue([w], root, u);
    RunGramKinds(n, u);
    if u != "aaaa" {
      assert [w][..0] == [];
      assert Weight([w], u, root) == Weight([], u, root) + Share(w, u, root);
      OnceRepeated(Count(Pad(w), u), Step(n + 2, WIDEST, root));
    }
  }

  lemma {:induction false} OnceRepeated(count: nat, step: real)
    requires count == 1
    ensures Repeated(count, step) == step
  {
    assert Repeated(0, step) == 0.0;
  }

  lemma {:induction false} RunGramKinds(n: nat, u: string)
    requires n >= 4 && |u| == WIDEST && Count(Pad(Repeat(n)), u) > 0
    ensures u in {"aaaa", "^aaa", "aaa$"}
    ensures u != "aaaa" ==> Count(Pad(Repeat(n)), u) == 1
  {
    var w := Repeat(n);
    var p, rest := Pad(w), w + "$";
    var i := OccurrenceIsAGram(p, u);
    assert u == [p[i], p[i + 1], p[i + 2], p[i + 3]];
    assert p == "^" + rest && p[1..] == rest && rest[..n] == w;
    if u[0] == '^' {
      NeverStarts(rest, u);
    } else if u[3] == '$' {
      EndMarkOnce(rest, u);
      FirstGramDiffers(rest, u);
    }
  }

  /**
   The search restores the words of every frame within a length bound exactly when that bound is at most 69:
   the bounds the program uses are 64 and 24.
   */
  lemma FramesAreRestoredExactlyUpTo69(longest: int, root: nat -> real)
    requires SquareRoots(root)
    ensures (forall words, w :: FrameWords(words, longest) && w in words
               ==> IsCandidate(AllowedMap(FrameGrams(words, root)), longest, w))
       <==> longest <= LONGEST_RESTORED
  {
    if longest <= LONGEST_RESTORED {
      forall words, w | FrameWords(words, longest) && w in words
        ensures IsCandidate(AllowedMap(FrameGrams(words, root)), longest, w)
      {
        EveryWordIsFound(words, w, longest, root);
      }
    } else {
      var n := LONGEST_RESTORED + 1;
      SeventyLettersAreLost(n, longest, root);
      assert FrameWords([Repeat(n)], longest) && Repeat(n) in [Repeat(n)];
    }
  }
}
